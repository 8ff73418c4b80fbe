/** npm lock files: where a dependency of an installed package resolves to, and the traversal of legacy locks.

    Current locks list packages by nested location; legacy locks are trees. */
module NpmLock {
  import opened Wrappers

  const SEPARATOR := "/node_modules/"
  const TOP := "node_modules/"
  const MAX_RELATIONSHIPS := 20_000
  const MAX_VISITED := 20_000

  // ----- names and locations -----------------------------------------------------------------

  predicate NameChar(c: char) {
    'a' <= c <= 'z' || '0' <= c <= '9' || c == '.' || c == '_' || c == '-'
  }

  predicate Segment(s: string) {
    s != [] && forall i :: 0 <= i < |s| ==> NameChar(s[i])
  }

  predicate Base(s: string) {
    Segment(s) && |s| <= 200 && ('a' <= s[0] <= 'z' || '0' <= s[0] <= '9')
  }

  /** A package name, or a scope and a package name. */
  predicate NpmName(s: string) {
    Base(s) || exists k :: 2 <= k < |s| && s[0] == '@' && s[k] == '/' && Segment(s[1..k]) && Base(s[k + 1..])
  }

  predicate Names(names: seq<string>) {
    forall n :: n in names ==> NpmName(n)
  }

  /** The location of a package nested inside the others named before it. */
  function Location(names: seq<string>): string
    requires names != []
  {
    if |names| == 1 then TOP + names[0] else Location(names[..|names| - 1]) + SEPARATOR + names[|names| - 1]
  }

  predicate OccursAt(s: string, i: nat) {
    i + |SEPARATOR| <= |s| && s[i..i + |SEPARATOR|] == SEPARATOR
  }

  /** The last occurrence of the separator at or before i. */
  function LastSeparator(s: string, i: nat): (r: Option<nat>)
    ensures r.Some? ==> r.value <= i && OccursAt(s, r.value)
  {
    if OccursAt(s, i) then Some(i) else if i == 0 then None else LastSeparator(s, i - 1)
  }

  function Parent(s: string): string {
    match LastSeparator(s, |s|)
    case None => ""
    case Some(i) => s[..i]
  }

  lemma {:induction false} LastSeparatorIs(s: string, i: nat, at: nat)
    requires at <= i && OccursAt(s, at) && forall j: nat :: at < j <= i ==> !OccursAt(s, j)
    ensures LastSeparator(s, i) == Some(at)
  {
    if at < i {
      LastSeparatorIs(s, i - 1, at);
    }
  }

  lemma {:induction false} NoSeparator(s: string, i: nat)
    requires forall j: nat :: j <= i ==> !OccursAt(s, j)
    ensures LastSeparator(s, i) == None
  {
    if i > 0 {
      NoSeparator(s, i - 1);
    }
  }

  /** A name has at most one slash, and does not begin with "node_modules/". */
  lemma NameHasOneSlash(name: string)
    requires NpmName(name)
    ensures forall i, j :: 0 <= i < j < |name| && name[i] == '/' ==> name[j] != '/'
    ensures |name| > 12 && name[12] == '/' ==> name[0] == '@'
  {
    if !Base(name) {
      var k :| 2 <= k < |name| && name[0] == '@' && name[k] == '/' && Segment(name[1..k]) && Base(name[k + 1..]);
      forall i | 0 < i < |name| && i != k ensures name[i] != '/' {
        if i < k {
          assert name[i] == name[1..k][i - 1];
        } else {
          assert name[i] == name[k + 1..][i - k - 1];
        }
      }
    }
  }

  lemma OccurrenceText(s: string, i: nat)
    ensures OccursAt(s, i) ==> i + 14 <= |s| && s[i] == '/' && s[i + 1] == 'n' && s[i + 13] == '/'
  {
    if OccursAt(s, i) {
      var found := s[i..i + |SEPARATOR|];
      assert found[0] == s[i] && found[1] == s[i + 1] && found[13] == s[i + 13];
    }
  }

  /** After the last "node_modules" no separator begins. */
  lemma NoneAfter(front: string, name: string, j: nat)
    requires NpmName(name) && j >= |front|
    ensures !OccursAt(front + "/" + name, j)
  {
    var s := front + "/" + name;
    NameHasOneSlash(name);
    OccurrenceText(s, j);
    assert forall i :: |front| < i < |s| ==> s[i] == name[i - |front| - 1];
  }

  lemma NoneInside(front: string, name: string, j: nat)
    requires |front| < j < |front| + 13
    ensures !OccursAt(front + SEPARATOR + name, j)
  {
    var s := front + SEPARATOR + name;
    assert s[j] == SEPARATOR[j - |front|] && SEPARATOR[j - |front|] != '/';
    OccurrenceText(s, j);
  }

  lemma NoneInTop(name: string, j: nat)
    requires j < 12
    ensures !OccursAt(TOP + name, j)
  {
    var s := TOP + name;
    assert s[j] == TOP[j] && TOP[j] != '/';
    OccurrenceText(s, j);
  }

  lemma TopHasNoParent(name: string)
    requires NpmName(name)
    ensures Parent(TOP + name) == ""
  {
    var s := TOP + name;
    assert s == "node_modules" + "/" + name;
    forall j: nat | j <= |s| ensures !OccursAt(s, j) {
      if j < 12 { NoneInTop(name, j); } else { NoneAfter("node_modules", name, j); }
    }
    NoSeparator(s, |s|);
  }

  lemma NestedHasParent(front: string, name: string)
    requires NpmName(name)
    ensures Parent(front + SEPARATOR + name) == front
  {
    var s := front + SEPARATOR + name;
    assert s == (front + "/node_modules") + "/" + name;
    assert s[|front|..|front| + |SEPARATOR|] == SEPARATOR;
    forall j: nat | |front| < j <= |s| ensures !OccursAt(s, j) {
      if j < |front| + 13 { NoneInside(front, name, j); } else { NoneAfter(front + "/node_modules", name, j); }
    }
    LastSeparatorIs(s, |s|, |front|);
  }

  /** The text before the last separator of a location is the location of the enclosing package. */
  lemma ParentOfLocation(names: seq<string>)
    requires names != [] && Names(names)
    ensures |names| == 1 ==> Parent(Location(names)) == ""
    ensures |names| > 1 ==> Parent(Location(names)) == Location(names[..|names| - 1])
  {
    var name := names[|names| - 1];
    if |names| == 1 {
      assert Location(names) == TOP + name;
      assert Parent(Location(names)) == "" by { TopHasNoParent(name); }
    } else {
      var front := Location(names[..|names| - 1]);
      assert Location(names) == front + SEPARATOR + name;
      assert Parent(Location(names)) == front by { NestedHasParent(front, name); }
    }
  }

  // ----- resolving one dependency ------------------------------------------------------------

  /** Where a dependency could be installed, seen from the k outermost packages. */
  function Candidate(names: seq<string>, k: nat, dependency: string): string
    requires k <= |names|
  {
    Location(names[..k] + [dependency])
  }

  /** The nearest enclosing entry of that name: the package's own first, then outwards. */
  ghost predicate IsNearest(names: seq<string>, dependency: string, known: set<string>, found: Option<string>) {
    match found
    case None => forall k: nat :: k <= |names| ==> Candidate(names, k, dependency) !in known
    case Some(at) =>
      exists k: nat :: k <= |names| && at == Candidate(names, k, dependency) && at in known
        && forall j: nat :: k < j <= |names| ==> Candidate(names, j, dependency) !in known
  }

  function NearestUpTo(names: seq<string>, k: nat, dependency: string, known: set<string>): Option<string>
    requires k <= |names|
  {
    if Candidate(names, k, dependency) in known then Some(Candidate(names, k, dependency))
    else if k == 0 then None else NearestUpTo(names, k - 1, dependency, known)
  }

  function Nearest(names: seq<string>, dependency: string, known: set<string>): Option<string> {
    NearestUpTo(names, |names|, dependency, known)
  }

  lemma {:induction false} NearestIsNearest(names: seq<string>, k: nat, dependency: string, known: set<string>)
    requires k <= |names| && forall j: nat :: k < j <= |names| ==> Candidate(names, j, dependency) !in known
    ensures IsNearest(names, dependency, known, NearestUpTo(names, k, dependency, known))
    decreases k
  {
    if Candidate(names, k, dependency) !in known && k > 0 {
      NearestIsNearest(names, k - 1, dependency, known);
    }
  }

  lemma CandidateText(names: seq<string>, k: nat, dependency: string)
    requires k <= |names|
    ensures Candidate(names, k, dependency) ==
              if k == 0 then TOP + dependency else Location(names[..k]) + SEPARATOR + dependency
  {
    var all := names[..k] + [dependency];
    assert all[..|all| - 1] == names[..k];
  }

  /** Walks outwards by cutting text at the last separator, and finds the nearest entry. */
  method Resolve(ghost names: seq<string>, location: string, dependency: string, known: set<string>)
    returns (found: Option<string>)
    requires names != [] && Names(names) && location == Location(names)
    ensures found == Nearest(names, dependency, known)
    ensures IsNearest(names, dependency, known, found)
  {
    hide NpmName, IsNearest, Parent;
    NearestIsNearest(names, |names|, dependency, known);
    var prefix := location;
    ghost var k: nat := |names|;
    assert names[..|names|] == names;
    while true
      invariant 0 <= k <= |names| && prefix == (if k == 0 then "" else Location(names[..k]))
      invariant Nearest(names, dependency, known) == NearestUpTo(names, k, dependency, known)
      decreases k
    {
      var candidate := if prefix != "" then prefix + SEPARATOR + dependency else TOP + dependency;
      LocationNotEmpty(names, k);
      CandidateText(names, k, dependency);
      if candidate in known {
        return Some(candidate);
      }
      if prefix == "" {
        return None;
      }
      ParentOfLocation(names[..k]);
      assert k > 1 ==> names[..k][..k - 1] == names[..k - 1];
      prefix := Parent(prefix);
      k := k - 1;
    }
  }

  lemma LocationNotEmpty(names: seq<string>, k: nat)
    requires k <= |names|
    ensures k > 0 ==> Location(names[..k]) != ""
  {
  }

  // ----- all dependencies of a lock ----------------------------------------------------------

  datatype Package = Package(names: seq<string>, dependencies: seq<string>)
  datatype Edge = Edge(from: string, to: string)
  datatype Found = Found(edges: seq<Edge>, missing: seq<string>)
  datatype Outcome = Complete(found: Found) | RelationshipBudget | InvalidName

  function Add(f: Found, from: string, to: Option<string>): Found {
    match to
    case Some(at) => Found(f.edges + [Edge(from, at)], f.missing)
    case None => Found(f.edges, f.missing + [from])
  }

  /** The first n dependencies of a package resolved one by one, each to an edge or to an unresolved report. */
  function Dependencies(p: Package, n: nat, known: set<string>, f: Found): Found
    requires n <= |p.dependencies| && p.names != []
  {
    if n == 0 then f
    else Add(Dependencies(p, n - 1, known, f), Location(p.names), Nearest(p.names, p.dependencies[n - 1], known))
  }

  /** The packages one after the other, after what earlier manifests have added. */
  function AllDependencies(ps: seq<Package>, known: set<string>, before: Found): Found
    requires forall i :: 0 <= i < |ps| ==> ps[i].names != []
  {
    if ps == [] then before
    else
      var last := ps[|ps| - 1];
      Dependencies(last, |last.dependencies|, known, AllDependencies(ps[..|ps| - 1], known, before))
  }

  /** The dependency has a valid name and is reached while the budget has room for another edge. */
  predicate Reached(p: Package, n: nat, known: set<string>, before: Found)
    requires n < |p.dependencies| && p.names != []
  {
    NpmName(p.dependencies[n]) && |Dependencies(p, n, known, before).edges| < MAX_RELATIONSHIPS
  }

  ghost predicate Resolvable(p: Package, known: set<string>, before: Found)
    requires p.names != []
  {
    forall n: nat :: n < |p.dependencies| ==> Reached(p, n, known, before)
  }

  /** Some dependency is reached with the budget spent. */
  ghost predicate Spent(p: Package, known: set<string>, before: Found)
    requires p.names != []
  {
    exists n: nat :: n < |p.dependencies| && |Dependencies(p, n, known, before).edges| >= MAX_RELATIONSHIPS
  }

  ghost predicate AllResolvable(ps: seq<Package>, known: set<string>, before: Found)
    requires forall i :: 0 <= i < |ps| ==> ps[i].names != []
  {
    forall i :: 0 <= i < |ps| ==> Resolvable(ps[i], known, AllDependencies(ps[..i], known, before))
  }

  function DependencyCount(ps: seq<Package>): nat {
    if ps == [] then 0 else DependencyCount(ps[..|ps| - 1]) + |ps[|ps| - 1].dependencies|
  }

  lemma {:induction false} DependenciesCounted(p: Package, n: nat, known: set<string>, f: Found)
    requires n <= |p.dependencies| && p.names != []
    ensures var r := Dependencies(p, n, known, f); |r.edges| + |r.missing| == |f.edges| + |f.missing| + n
    decreases n
  {
    if n > 0 {
      DependenciesCounted(p, n - 1, known, f);
    }
  }

  /** Every dependency gives exactly one edge or one report. */
  lemma {:induction false} EveryDependencyCounted(ps: seq<Package>, known: set<string>, before: Found)
    requires forall i :: 0 <= i < |ps| ==> ps[i].names != []
    ensures var r := AllDependencies(ps, known, before);
            |r.edges| + |r.missing| == |before.edges| + |before.missing| + DependencyCount(ps)
  {
    if ps != [] {
      EveryDependencyCounted(ps[..|ps| - 1], known, before);
      var last := ps[|ps| - 1];
      DependenciesCounted(last, |last.dependencies|, known, AllDependencies(ps[..|ps| - 1], known, before));
    }
  }

  lemma {:induction false} EdgesBounded(p: Package, n: nat, known: set<string>, f: Found)
    requires n <= |p.dependencies| && p.names != []
    ensures |f.edges| <= |Dependencies(p, n, known, f).edges| <= |f.edges| + n
    decreases n
  {
    if n > 0 {
      EdgesBounded(p, n - 1, known, f);
    }
  }

  lemma {:induction false} AllEdgesBounded(ps: seq<Package>, k: nat, known: set<string>, before: Found)
    requires k <= |ps| && forall i :: 0 <= i < |ps| ==> ps[i].names != []
    ensures |AllDependencies(ps[..k], known, before).edges| <= |before.edges| + DependencyCount(ps[..k])
    ensures k < |ps| ==> DependencyCount(ps[..k]) + |ps[k].dependencies| <= DependencyCount(ps)
    decreases |ps|, k
  {
    if k > 0 {
      assert ps[..k][..k - 1] == ps[..k - 1];
      AllEdgesBounded(ps, k - 1, known, before);
      var last := ps[k - 1];
      EdgesBounded(last, |last.dependencies|, known, AllDependencies(ps[..k - 1], known, before));
    }
    if k < |ps| {
      CountGrows(ps, k + 1);
      assert ps[..k + 1][..k] == ps[..k];
    }
  }

  lemma {:induction false} CountGrows(ps: seq<Package>, k: nat)
    requires k <= |ps|
    ensures DependencyCount(ps[..k]) <= DependencyCount(ps)
    decreases |ps| - k
  {
    if k == |ps| {
      assert ps[..k] == ps;
    } else {
      CountGrows(ps, k + 1);
      assert ps[..k + 1][..k] == ps[..k];
    }
  }

  /** A lock with valid names and no more dependencies than there is room for edges is resolved in full. */
  lemma RoomForAll(ps: seq<Package>, known: set<string>, before: Found)
    requires forall i :: 0 <= i < |ps| ==> ps[i].names != [] && Names(ps[i].dependencies)
    requires |before.edges| + DependencyCount(ps) <= MAX_RELATIONSHIPS
    ensures AllResolvable(ps, known, before)
  {
    forall i: nat, n: nat | i < |ps| && n < |ps[i].dependencies|
      ensures Reached(ps[i], n, known, AllDependencies(ps[..i], known, before))
    {
      AllEdgesBounded(ps, i, known, before);
      EdgesBounded(ps[i], n, known, AllDependencies(ps[..i], known, before));
      assert ps[i].dependencies[n] in ps[i].dependencies;
    }
  }

  /** What one dependency gives: an edge from its package to the nearest entry of its name, or a report of its package. */
  ghost predicate Gives(p: Package, dependency: string, known: set<string>, edge: Edge)
    requires p.names != []
  {
    edge.from == Location(p.names) && IsNearest(p.names, dependency, known, Some(edge.to))
  }

  ghost predicate GivesNothing(p: Package, dependency: string, known: set<string>, location: string)
    requires p.names != []
  {
    location == Location(p.names) && IsNearest(p.names, dependency, known, None)
  }

  /** The edges and reports of a package, beyond those before, in the order of its dependencies. */
  ghost predicate Given(p: Package, n: nat, known: set<string>, edges: seq<Edge>, missing: seq<string>)
    requires n <= |p.dependencies| && p.names != []
  {
    if n == 0 then edges == [] && missing == []
    else
      var dependency := p.dependencies[n - 1];
      || (edges != [] && Gives(p, dependency, known, edges[|edges| - 1])
          && Given(p, n - 1, known, edges[..|edges| - 1], missing))
      || (missing != [] && GivesNothing(p, dependency, known, missing[|missing| - 1])
          && Given(p, n - 1, known, edges, missing[..|missing| - 1]))
  }

  /** The same for a list of packages. */
  ghost predicate AllGiven(ps: seq<Package>, known: set<string>, edges: seq<Edge>, missing: seq<string>)
    requires forall i :: 0 <= i < |ps| ==> ps[i].names != []
  {
    if ps == [] then edges == [] && missing == []
    else
      var last := ps[|ps| - 1];
      exists e: nat, m: nat :: e <= |edges| && m <= |missing|
        && AllGiven(ps[..|ps| - 1], known, edges[..e], missing[..m])
        && Given(last, |last.dependencies|, known, edges[e..], missing[m..])
  }

  lemma {:induction false} DependenciesAreGiven(p: Package, n: nat, known: set<string>, before: Found)
    returns (edges: seq<Edge>, missing: seq<string>)
    requires n <= |p.dependencies| && p.names != []
    ensures Given(p, n, known, edges, missing)
    ensures Dependencies(p, n, known, before) == Found(before.edges + edges, before.missing + missing)
    decreases n
  {
    edges, missing := [], [];
    if n > 0 {
      edges, missing := DependenciesAreGiven(p, n - 1, known, before);
      var dependency := p.dependencies[n - 1];
      NearestIsNearest(p.names, |p.names|, dependency, known);
      match Nearest(p.names, dependency, known)
      case Some(at) =>
        assert (edges + [Edge(Location(p.names), at)])[..|edges|] == edges;
        edges := edges + [Edge(Location(p.names), at)];
      case None =>
        assert (missing + [Location(p.names)])[..|missing|] == missing;
        missing := missing + [Location(p.names)];
    }
  }

  lemma OneMoreGiven(ps: seq<Package>, known: set<string>, e: seq<Edge>, m: seq<string>, e': seq<Edge>, m': seq<string>)
    requires ps != [] && forall i :: 0 <= i < |ps| ==> ps[i].names != []
    requires AllGiven(ps[..|ps| - 1], known, e, m)
    requires Given(ps[|ps| - 1], |ps[|ps| - 1].dependencies|, known, e', m')
    ensures AllGiven(ps, known, e + e', m + m')
  {
    hide Given, Location;
    assert (e + e')[..|e|] == e && (e + e')[|e|..] == e' && (m + m')[..|m|] == m && (m + m')[|m|..] == m';
  }

  /** Each dependency in turn has given one edge, from its package to the nearest entry of its name, or, if there is none, one
      report of its package; and nothing else was added. */
  lemma {:induction false} AllDependenciesAreGiven(ps: seq<Package>, known: set<string>, before: Found)
    returns (edges: seq<Edge>, missing: seq<string>)
    requires forall i :: 0 <= i < |ps| ==> ps[i].names != []
    ensures AllGiven(ps, known, edges, missing)
    ensures AllDependencies(ps, known, before) == Found(before.edges + edges, before.missing + missing)
  {
    hide Given, Dependencies, Location;
    if ps == [] {
      edges, missing := [], [];
      Plus(before, [], [], [], []);
    } else {
      var front, last := ps[..|ps| - 1], ps[|ps| - 1];
      var e, m := AllDependenciesAreGiven(front, known, before);
      var found := AllDependencies(front, known, before);
      assert AllDependencies(ps, known, before) == Dependencies(last, |last.dependencies|, known, found);
      hide AllGiven, AllDependencies;
      var e', m' := DependenciesAreGiven(last, |last.dependencies|, known, found);
      edges, missing := e + e', m + m';
      OneMoreGiven(ps, known, e, m, e', m');
      Plus(before, e, m, e', m');
    }
  }

  lemma Plus(before: Found, e: seq<Edge>, m: seq<string>, e': seq<Edge>, m': seq<string>)
    ensures Found(before.edges + e + e', before.missing + m + m') == Found(before.edges + (e + e'), before.missing + (m + m'))
    ensures Found(before.edges + [], before.missing + []) == before
  {
    assert before.edges + e + e' == before.edges + (e + e') && before.missing + m + m' == before.missing + (m + m');
  }

  /** What was found before, and what the packages give. */
  ghost predicate Extends(ps: seq<Package>, known: set<string>, before: Found, after: Found)
    requires forall i :: 0 <= i < |ps| ==> ps[i].names != []
  {
    exists edges, missing :: AllGiven(ps, known, edges, missing)
      && after == Found(before.edges + edges, before.missing + missing)
  }

  lemma AllExtends(ps: seq<Package>, known: set<string>, before: Found)
    requires forall i :: 0 <= i < |ps| ==> ps[i].names != []
    ensures Extends(ps, known, before, AllDependencies(ps, known, before))
  {
    hide AllDependencies, AllGiven;
    var edges, missing := AllDependenciesAreGiven(ps, known, before);
  }

  method ResolvePackage(p: Package, known: set<string>, before: Found) returns (r: Outcome)
    requires p.names != [] && Names(p.names)
    ensures r.Complete? <==> Resolvable(p, known, before)
    ensures r.Complete? ==> r.found == Dependencies(p, |p.dependencies|, known, before)
    ensures r.RelationshipBudget? ==> Spent(p, known, before)
    ensures r.InvalidName? ==> !Names(p.dependencies)
  {
    hide NpmName, Nearest, Location;
    var found := before;
    for n := 0 to |p.dependencies|
      invariant found == Dependencies(p, n, known, before)
      invariant forall m: nat :: m < n ==> Reached(p, m, known, before)
    {
      if |found.edges| >= MAX_RELATIONSHIPS {
        assert !Reached(p, n, known, before);
        return RelationshipBudget;
      }
      if !NpmName(p.dependencies[n]) {
        assert !Reached(p, n, known, before);
        assert p.dependencies[n] in p.dependencies;
        return InvalidName;
      }
      assert Reached(p, n, known, before);
      var at := Resolve(p.names, Location(p.names), p.dependencies[n], known);
      match at
      case Some(to) => found := found.(edges := found.edges + [Edge(Location(p.names), to)]);
      case None => found := found.(missing := found.missing + [Location(p.names)]);
    }
    return Complete(found);
  }

  /** Resolves the dependencies of every package, in addition to what earlier manifests have found. It completes exactly
      when every dependency has a valid name and is reached within the budget; then each has gone to its nearest entry or
      been reported. */
  method ResolveAll(ps: seq<Package>, known: set<string>, before: Found) returns (r: Outcome)
    requires forall i :: 0 <= i < |ps| ==> ps[i].names != [] && Names(ps[i].names)
    ensures r.Complete? <==> AllResolvable(ps, known, before)
    ensures r.Complete? ==>
              && r.found == AllDependencies(ps, known, before)
              && |r.found.edges| + |r.found.missing| == |before.edges| + |before.missing| + DependencyCount(ps)
    ensures r.Complete? ==> Extends(ps, known, before, r.found)
    ensures r.RelationshipBudget? ==>
              exists i :: 0 <= i < |ps| && Spent(ps[i], known, AllDependencies(ps[..i], known, before))
    ensures r.InvalidName? ==> exists i :: 0 <= i < |ps| && !Names(ps[i].dependencies)
  {
    hide NpmName, Dependencies, Resolvable, Reached, Spent, Location, Nearest, Names, Extends;
    var found := before;
    for i := 0 to |ps|
      invariant found == AllDependencies(ps[..i], known, before)
      invariant forall k :: 0 <= k < i ==> Resolvable(ps[k], known, AllDependencies(ps[..k], known, before))
    {
      assert ps[..i + 1][..i] == ps[..i];
      var one := ResolvePackage(ps[i], known, found);
      if !one.Complete? {
        assert !Resolvable(ps[i], known, AllDependencies(ps[..i], known, before));
        return one;
      }
      found := one.found;
      assert AllDependencies(ps[..i + 1], known, before) == found;
    }
    assert ps[..|ps|] == ps;
    EveryDependencyCounted(ps, known, before);
    AllExtends(ps, known, before);
    return Complete(found);
  }

  // ----- legacy locks ------------------------------------------------------------------------

  datatype Tree = Node(name: string, children: seq<Tree>)

  function Place(parent: string, name: string): string {
    if parent == "" then TOP + name else parent + SEPARATOR + name
  }

  /** A node's place in a legacy lock is what its location would be in a current one. */
  lemma PlaceIsLocation(names: seq<string>, name: string)
    ensures Place("", name) == Location([name]) == "node_modules/" + name
    ensures names != [] ==> Place(Location(names), name) == Location(names + [name])
                            == Location(names) + "/node_modules/" + name
  {
    if names != [] {
      assert (names + [name])[..|names|] == names;
      LocationNotEmpty(names, |names|);
      assert names[..|names|] == names;
    }
  }

  function Size(ts: seq<Tree>): nat
    decreases ts
  {
    if ts == [] then 0 else 1 + Size(ts[0].children) + Size(ts[1..])
  }

  /** One location per node. */
  function Places(ts: seq<Tree>, parent: string): multiset<string>
    decreases ts
  {
    if ts == [] then multiset{}
    else
      var here := Place(parent, ts[0].name);
      multiset{here} + Places(ts[0].children, here) + Places(ts[1..], parent)
  }

  /** One edge per node that has a parent, from the parent to the node. */
  function Links(ts: seq<Tree>, parent: string): multiset<Edge>
    decreases ts
  {
    if ts == [] then multiset{}
    else
      var here := Place(parent, ts[0].name);
      (if parent == "" then multiset{} else multiset{Edge(parent, here)}) + Links(ts[0].children, here) + Links(ts[1..], parent)
  }

  datatype Pending = Pending(tree: Tree, parent: string)

  function Waiting(ts: seq<Tree>, parent: string): seq<Pending> {
    seq(|ts|, i requires 0 <= i < |ts| => Pending(ts[i], parent))
  }

  function PendingSize(w: seq<Pending>): nat {
    if w == [] then 0 else 1 + Size(w[0].tree.children) + PendingSize(w[1..])
  }

  function PendingPlaces(w: seq<Pending>): multiset<string> {
    if w == [] then multiset{} else Places([w[0].tree], w[0].parent) + PendingPlaces(w[1..])
  }

  function PendingLinks(w: seq<Pending>): multiset<Edge> {
    if w == [] then multiset{} else Links([w[0].tree], w[0].parent) + PendingLinks(w[1..])
  }

  lemma {:induction false} PendingConcat(a: seq<Pending>, b: seq<Pending>)
    ensures PendingSize(a + b) == PendingSize(a) + PendingSize(b)
    ensures PendingPlaces(a + b) == PendingPlaces(a) + PendingPlaces(b)
    ensures PendingLinks(a + b) == PendingLinks(a) + PendingLinks(b)
  {
    hide Size, Places, Links;
    if a == [] {
      assert a + b == b;
    } else {
      assert (a + b)[1..] == a[1..] + b;
      PendingConcat(a[1..], b);
    }
  }

  lemma OneTree(t: Tree, rest: seq<Tree>, parent: string)
    ensures var here := Place(parent, t.name);
            var link := if parent == "" then multiset{} else multiset{Edge(parent, here)};
            && Places([t], parent) == multiset{here} + Places(t.children, here)
            && Links([t], parent) == link + Links(t.children, here)
            && Places([t] + rest, parent) == Places([t], parent) + Places(rest, parent)
            && Links([t] + rest, parent) == Links([t], parent) + Links(rest, parent)
  {
    assert ([t] + rest)[1..] == rest && [t][1..] == [];
  }

  lemma OneWaiting(p: Pending)
    ensures PendingSize([p]) == 1 + Size(p.tree.children)
    ensures PendingPlaces([p]) == Places([p.tree], p.parent) && PendingLinks([p]) == Links([p.tree], p.parent)
  {
    assert [p][1..] == [];
  }

  lemma WaitingCons(ts: seq<Tree>, parent: string)
    requires ts != []
    ensures PendingSize(Waiting(ts, parent)) == 1 + Size(ts[0].children) + PendingSize(Waiting(ts[1..], parent))
    ensures PendingPlaces(Waiting(ts, parent)) == Places([ts[0]], parent) + PendingPlaces(Waiting(ts[1..], parent))
    ensures PendingLinks(Waiting(ts, parent)) == Links([ts[0]], parent) + PendingLinks(Waiting(ts[1..], parent))
  {
    var first := Pending(ts[0], parent);
    assert Waiting(ts, parent) == [first] + Waiting(ts[1..], parent);
    PendingConcat([first], Waiting(ts[1..], parent));
    OneWaiting(first);
  }

  lemma ForestCons(ts: seq<Tree>, parent: string)
    requires ts != []
    ensures Size(ts) == 1 + Size(ts[0].children) + Size(ts[1..])
    ensures Places(ts, parent) == Places([ts[0]], parent) + Places(ts[1..], parent)
    ensures Links(ts, parent) == Links([ts[0]], parent) + Links(ts[1..], parent)
  {
    OneTree(ts[0], ts[1..], parent);
    assert [ts[0]] + ts[1..] == ts;
  }

  lemma {:induction false} WaitingIsForest(ts: seq<Tree>, parent: string)
    ensures PendingSize(Waiting(ts, parent)) == Size(ts)
    ensures PendingPlaces(Waiting(ts, parent)) == Places(ts, parent)
    ensures PendingLinks(Waiting(ts, parent)) == Links(ts, parent)
    decreases |ts|
  {
    if ts != [] {
      WaitingIsForest(ts[1..], parent);
      WaitingCons(ts, parent);
      ForestCons(ts, parent);
    }
  }

  /** Taking the last waiting node and putting its children in its place accounts for everything. */
  lemma PopKeeps(w: seq<Pending>)
    requires w != []
    ensures var last := w[|w| - 1];
            var here := Place(last.parent, last.tree.name);
            var next := w[..|w| - 1] + Waiting(last.tree.children, here);
            && PendingSize(w) == 1 + PendingSize(next)
            && PendingPlaces(w) == multiset{here} + PendingPlaces(next)
            && PendingLinks(w) == (if last.parent == "" then multiset{} else multiset{Edge(last.parent, here)}) + PendingLinks(next)
  {
    var front, last := w[..|w| - 1], w[|w| - 1];
    var here := Place(last.parent, last.tree.name);
    var children := Waiting(last.tree.children, here);
    assert w == front + [last];
    PendingConcat(front, [last]);
    PendingConcat(front, children);
    OneWaiting(last);
    OneTree(last.tree, [], last.parent);
    WaitingIsForest(last.tree.children, here);
    Reorder(PendingPlaces(front), multiset{here}, PendingPlaces(children));
    Reorder(PendingLinks(front), if last.parent == "" then multiset{} else multiset{Edge(last.parent, here)}, PendingLinks(children));
  }

  lemma Reorder<T>(a: multiset<T>, b: multiset<T>, c: multiset<T>)
    ensures a + (b + c) == b + (a + c)
  {
  }

  datatype Inventory = Inventory(components: seq<string>, edges: seq<Edge>)

  /** How a traversal ends; what was collected before is kept either way. */
  datatype End = Finished | ComponentBudget | EdgeBudget | TraversalBudget

  /** What has been collected and what still waits add up to the lock. */
  ghost predicate AddsUp(roots: seq<Tree>, found: Inventory, pending: seq<Pending>) {
    && |found.components| + PendingSize(pending) == Size(roots)
    && multiset(found.components) + PendingPlaces(pending) == Places(roots, "")
    && multiset(found.edges) + PendingLinks(pending) == Links(roots, "")
  }

  function Opened(w: seq<Pending>): seq<Pending>
    requires w != []
  {
    var last := w[|w| - 1];
    w[..|w| - 1] + Waiting(last.tree.children, Place(last.parent, last.tree.name))
  }

  lemma Moved<T>(found: seq<T>, more: seq<T>, waiting: multiset<T>)
    ensures multiset(found + more) + waiting == multiset(found) + (multiset(more) + waiting)
  {
  }

  lemma StepAddsUp(roots: seq<Tree>, found: Inventory, pending: seq<Pending>, next: Inventory)
    requires pending != [] && AddsUp(roots, found, pending)
    requires var last := pending[|pending| - 1];
             var here := Place(last.parent, last.tree.name);
             next.components == found.components + [here]
             && next.edges == found.edges + (if last.parent == "" then [] else [Edge(last.parent, here)])
    ensures AddsUp(roots, next, Opened(pending))
    ensures PendingSize(Opened(pending)) < PendingSize(pending)
  {
    hide Size, Places, Links, PendingSize, PendingPlaces, PendingLinks, Waiting;
    PopKeeps(pending);
    var rest, last := Opened(pending), pending[|pending| - 1];
    var here := Place(last.parent, last.tree.name);
    var link := if last.parent == "" then [] else [Edge(last.parent, here)];
    Moved(found.components, [here], PendingPlaces(rest));
    Moved(found.edges, link, PendingLinks(rest));
  }

  lemma StillNeeded(roots: seq<Tree>, found: Inventory, pending: seq<Pending>)
    requires pending != [] && AddsUp(roots, found, pending)
    ensures |found.components| < Size(roots)
    ensures pending[|pending| - 1].parent != "" ==> |found.edges| < |Links(roots, "")|
  {
    PopKeeps(pending);
    assert |multiset(found.edges) + PendingLinks(pending)| == |found.edges| + |PendingLinks(pending)|;
  }

  predicate FitsBudgets(roots: seq<Tree>, components: nat, edges: nat, maxComponents: nat) {
    && Size(roots) <= MAX_VISITED
    && (roots != [] ==> components + Size(roots) <= maxComponents)
    && (Links(roots, "") != multiset{} ==> edges + |Links(roots, "")| <= MAX_RELATIONSHIPS)
  }

  predicate WithinBudgets(found: Inventory, components: nat, edges: nat, maxComponents: nat) {
    && (found.components != [] ==> components + |found.components| <= maxComponents)
    && (found.edges != [] ==> edges + |found.edges| <= MAX_RELATIONSHIPS)
  }

  /** Records the last waiting node, its component and, below the top, its edge, and puts its children in its place. */
  method VisitLast(ghost roots: seq<Tree>, pending: seq<Pending>, found: Inventory, components: nat, edges: nat,
                   maxComponents: nat)
    returns (end: End, next: Inventory, rest: seq<Pending>)
    requires pending != [] && AddsUp(roots, found, pending) && WithinBudgets(found, components, edges, maxComponents)
    ensures end.Finished? ==> AddsUp(roots, next, rest) && WithinBudgets(next, components, edges, maxComponents)
                              && PendingSize(rest) < PendingSize(pending) && |next.components| == |found.components| + 1
    ensures !end.Finished? ==> !FitsBudgets(roots, components, edges, maxComponents)
  {
    next, rest := found, pending;
    StillNeeded(roots, found, pending);
    var last := pending[|pending| - 1];
    var here := Place(last.parent, last.tree.name);
    if components + |found.components| >= maxComponents {
      return ComponentBudget, next, rest;
    }
    next := next.(components := next.components + [here]);
    if last.parent != "" {
      if edges + |found.edges| >= MAX_RELATIONSHIPS {
        return EdgeBudget, next, rest;
      }
      next := next.(edges := next.edges + [Edge(last.parent, here)]);
    }
    StepAddsUp(roots, found, pending, next);
    rest := pending[..|pending| - 1] + Waiting(last.tree.children, here);
    return Finished, next, rest;
  }

  /** Walks a legacy lock. `components` and `edges` count what earlier manifests have added. The walk finishes exactly
      when the lock fits the budgets left; then it has added one component for every node and one edge for every node
      below the top. */
  method WalkLegacy(roots: seq<Tree>, components: nat, edges: nat, maxComponents: nat) returns (end: End, found: Inventory)
    ensures end.Finished? <==> FitsBudgets(roots, components, edges, maxComponents)
    ensures end.Finished? ==> multiset(found.components) == Places(roots, "") && multiset(found.edges) == Links(roots, "")
  {
    found := Inventory([], []);
    var pending := Waiting(roots, "");
    var visited := 0;
    WaitingIsForest(roots, "");
    while pending != []
      invariant visited == |found.components| <= MAX_VISITED
      invariant AddsUp(roots, found, pending) && WithinBudgets(found, components, edges, maxComponents)
      decreases PendingSize(pending)
    {
      visited := visited + 1;
      if visited > MAX_VISITED {
        StillNeeded(roots, found, pending);
        return TraversalBudget, found;
      }
      end, found, pending := VisitLast(roots, pending, found, components, edges, maxComponents);
      if !end.Finished? {
        return;
      }
    }
    FinishedFits(roots, found);
    return Finished, found;
  }

  lemma FinishedFits(roots: seq<Tree>, found: Inventory)
    requires AddsUp(roots, found, [])
    ensures |found.components| == Size(roots) && (roots != [] ==> found.components != [])
    ensures multiset(found.components) == Places(roots, "") && multiset(found.edges) == Links(roots, "")
    ensures |found.edges| == |Links(roots, "")| && (Links(roots, "") != multiset{} ==> found.edges != [])
  {
    assert |multiset(found.edges)| == |found.edges|;
  }
}
