/** Differences between two snapshots and the impact analysis that gates promotion. */
module SnapshotDiff {
  import opened Basics
  import opened Ordering
  import opened Compiler

  datatype ChangeKind = Added | Removed | Updated

  datatype Change = Change(name: string, kind: ChangeKind)

  type Fingerprints = map<string, string>

  /** Fingerprints by name; a later resource replaces an earlier one of the same name. */
  function Index<T>(items: seq<T>, name: T -> string, fingerprint: T -> string): Fingerprints {
    if items == [] then map[]
    else
      var last := items[|items| - 1];
      Index(items[..|items| - 1], name, fingerprint)[name(last) := fingerprint(last)]
  }

  /** What happened to one name. */
  function KindOf(previous: Fingerprints, next: Fingerprints, name: string): Option<ChangeKind> {
    if name !in previous && name in next then Some(Added)
    else if name in previous && name !in next then Some(Removed)
    else if name in previous && name in next && previous[name] != next[name] then Some(Updated)
    else None
  }

  function Changes(previous: Fingerprints, next: Fingerprints, names: seq<string>): seq<Change> {
    if names == [] then []
    else
      var last := names[|names| - 1];
      var before := Changes(previous, next, names[..|names| - 1]);
      match KindOf(previous, next, last)
      case Some(kind) => before + [Change(last, kind)]
      case None => before
  }

  function AllNames(previous: Fingerprints, next: Fingerprints): (names: seq<string>)
    ensures forall n :: n in names <==> n in previous || n in next
    ensures forall i, j :: 0 <= i < j < |names| ==> StrLeq(names[i], names[j]) && names[i] != names[j]
  {
    SortedNames(previous.Keys + next.Keys)
  }

  function Diff<T>(previous: seq<T>, next: seq<T>, name: T -> string, fingerprint: T -> string): seq<Change> {
    var p, n := Index(previous, name, fingerprint), Index(next, name, fingerprint);
    Changes(p, n, AllNames(p, n))
  }

  method IndexByName<T>(items: seq<T>, name: T -> string, fingerprint: T -> string) returns (index: Fingerprints)
    ensures index == Index(items, name, fingerprint)
  {
    index := map[];
    for i := 0 to |items|
      invariant index == Index(items[..i], name, fingerprint)
    {
      assert items[..i + 1][..i] == items[..i];
      index := index[name(items[i]) := fingerprint(items[i])];
    }
    assert items[..|items|] == items;
  }

  method DiffNamedResources<T>(previous: seq<T>, next: seq<T>, name: T -> string, fingerprint: T -> string)
    returns (changes: seq<Change>)
    ensures changes == Diff(previous, next, name, fingerprint)
  {
    var p := IndexByName(previous, name, fingerprint);
    var n := IndexByName(next, name, fingerprint);
    changes := ListChanges(p, n, AllNames(p, n));
  }

  method ListChanges(p: Fingerprints, n: Fingerprints, names: seq<string>) returns (changes: seq<Change>)
    ensures changes == Changes(p, n, names)
  {
    changes := [];
    for i := 0 to |names|
      invariant changes == Changes(p, n, names[..i])
    {
      assert names[..i + 1] == names[..i] + [names[i]];
      ChangesSnoc(p, n, names[..i], names[i]);
      var x := names[i];
      if x !in p && x in n {
        changes := changes + [Change(x, Added)];
      } else if x in p && x !in n {
        changes := changes + [Change(x, Removed)];
      } else if x in p && x in n && p[x] != n[x] {
        changes := changes + [Change(x, Updated)];
      }
    }
    assert names[..|names|] == names;
  }

  // ----- exactness -----

  lemma {:induction false} ChangesMembers(p: Fingerprints, n: Fingerprints, names: seq<string>, c: Change)
    ensures c in Changes(p, n, names) <==> c.name in names && KindOf(p, n, c.name) == Some(c.kind)
    decreases |names|
  {
    if names != [] {
      ChangesMembers(p, n, names[..|names| - 1], c);
      assert names == names[..|names| - 1] + [names[|names| - 1]];
    }
  }

  ghost predicate InNameOrder(changes: seq<Change>) {
    forall i, j :: 0 <= i < j < |changes| ==>
      StrLeq(changes[i].name, changes[j].name) && changes[i].name != changes[j].name
  }

  lemma {:induction false} ChangesOrdered(p: Fingerprints, n: Fingerprints, names: seq<string>)
    requires StrictlySorted(names, StrLeq)
    ensures InNameOrder(Changes(p, n, names))
    decreases |names|
  {
    if names != [] {
      var front, last := names[..|names| - 1], names[|names| - 1];
      ChangesOrdered(p, n, front);
      var before := Changes(p, n, front);
      forall i | 0 <= i < |before| ensures StrLeq(before[i].name, last) && before[i].name != last {
        ChangesMembers(p, n, front, before[i]);
        var j :| 0 <= j < |front| && front[j] == before[i].name;
        assert names[j] == front[j];
      }
    }
  }

  ghost predicate UniqueNames<T>(items: seq<T>, name: T -> string) {
    forall i, j :: 0 <= i < j < |items| ==> name(items[i]) != name(items[j])
  }

  lemma {:induction false} IndexMeaning<T>(items: seq<T>, name: T -> string, fingerprint: T -> string)
    ensures forall x :: x in Index(items, name, fingerprint) <==> exists i :: 0 <= i < |items| && name(items[i]) == x
    ensures UniqueNames(items, name) ==>
      forall i :: 0 <= i < |items| ==>
        name(items[i]) in Index(items, name, fingerprint)
          && Index(items, name, fingerprint)[name(items[i])] == fingerprint(items[i])
    decreases |items|
  {
    if items != [] {
      var front := items[..|items| - 1];
      IndexMeaning(front, name, fingerprint);
      assert forall i :: 0 <= i < |front| ==> front[i] == items[i];
    }
  }

  /** `x` is the resource listed under `n`. */
  ghost predicate Lists<T>(items: seq<T>, name: T -> string, n: string, x: T) {
    x in items && name(x) == n
  }

  ghost predicate Injective<T(!new)>(fingerprint: T -> string) {
    forall x, y :: fingerprint(x) == fingerprint(y) ==> x == y
  }

  /** The change that really happened to a name, stated on the resources themselves. */
  ghost predicate Happened<T(!new)>(previous: seq<T>, next: seq<T>, name: T -> string, c: Change) {
    match c.kind
    case Added => (exists y :: Lists(next, name, c.name, y)) && !(exists x :: Lists(previous, name, c.name, x))
    case Removed => (exists x :: Lists(previous, name, c.name, x)) && !(exists y :: Lists(next, name, c.name, y))
    case Updated => exists x, y :: Lists(previous, name, c.name, x) && Lists(next, name, c.name, y) && x != y
  }

  /** The entry for `n` is the fingerprint of the resource listed under it, if there is one. */
  ghost predicate Indexed<T(!new)>(items: seq<T>, name: T -> string, fingerprint: T -> string, m: Fingerprints,
                                   n: string)
  {
    && (n in m <==> exists x :: Lists(items, name, n, x))
    && (forall x :: Lists(items, name, n, x) ==> n in m && m[n] == fingerprint(x))
  }

  lemma IndexLists<T(!new)>(items: seq<T>, name: T -> string, fingerprint: T -> string, n: string)
    requires UniqueNames(items, name)
    ensures Indexed(items, name, fingerprint, Index(items, name, fingerprint), n)
  {
    IndexMeaning(items, name, fingerprint);
    var m := Index(items, name, fingerprint);
    forall x | Lists(items, name, n, x) ensures n in m && m[n] == fingerprint(x) {
      var i :| 0 <= i < |items| && items[i] == x;
    }
    if n in m {
      var i :| 0 <= i < |items| && name(items[i]) == n;
      assert Lists(items, name, n, items[i]);
    }
  }

  lemma KindHappened<T(!new)>(previous: seq<T>, next: seq<T>, name: T -> string, fingerprint: T -> string,
                              p: Fingerprints, n: Fingerprints, c: Change)
    requires Injective(fingerprint)
    requires Indexed(previous, name, fingerprint, p, c.name) && Indexed(next, name, fingerprint, n, c.name)
    ensures KindOf(p, n, c.name) == Some(c.kind) <==> Happened(previous, next, name, c)
  {
  }

  lemma DiffMember<T(!new)>(previous: seq<T>, next: seq<T>, name: T -> string, fingerprint: T -> string, c: Change)
    requires UniqueNames(previous, name) && UniqueNames(next, name) && Injective(fingerprint)
    ensures c in Diff(previous, next, name, fingerprint) <==> Happened(previous, next, name, c)
  {
    var p, n := Index(previous, name, fingerprint), Index(next, name, fingerprint);
    ChangesMembers(p, n, AllNames(p, n), c);
    IndexLists(previous, name, fingerprint, c.name);
    IndexLists(next, name, fingerprint, c.name);
    KindHappened(previous, next, name, fingerprint, p, n, c);
  }

  /**
   The diff of two lists with unique names reports a change of a name exactly when it happened, in
   name order and once per name.
   */
  lemma DiffExact<T(!new)>(previous: seq<T>, next: seq<T>, name: T -> string, fingerprint: T -> string)
    requires UniqueNames(previous, name) && UniqueNames(next, name) && Injective(fingerprint)
    ensures forall c :: c in Diff(previous, next, name, fingerprint) <==> Happened(previous, next, name, c)
    ensures InNameOrder(Diff(previous, next, name, fingerprint))
  {
    var p, n := Index(previous, name, fingerprint), Index(next, name, fingerprint);
    ChangesOrdered(p, n, AllNames(p, n));
    forall c ensures c in Diff(previous, next, name, fingerprint) <==> Happened(previous, next, name, c) {
      DiffMember(previous, next, name, fingerprint, c);
    }
  }

  function Swapped(c: Change): Change {
    match c.kind case Added => c.(kind := Removed) case Removed => c.(kind := Added) case Updated => c
  }

  lemma {:induction false} ChangesSwap(p: Fingerprints, n: Fingerprints, names: seq<string>)
    ensures |Changes(n, p, names)| == |Changes(p, n, names)|
    ensures forall i :: 0 <= i < |Changes(p, n, names)| ==> Changes(n, p, names)[i] == Swapped(Changes(p, n, names)[i])
    decreases |names|
  {
    if names != [] { ChangesSwap(p, n, names[..|names| - 1]); }
  }

  /** Diffing the other way round swaps additions with removals, in the same order. */
  lemma DiffSwap<T(!new)>(previous: seq<T>, next: seq<T>, name: T -> string, fingerprint: T -> string)
    ensures
      var there, back := Diff(previous, next, name, fingerprint), Diff(next, previous, name, fingerprint);
      |there| == |back| && forall i :: 0 <= i < |there| ==> back[i] == Swapped(there[i])
  {
    var p, n := Index(previous, name, fingerprint), Index(next, name, fingerprint);
    assert p.Keys + n.Keys == n.Keys + p.Keys;
    ChangesSwap(p, n, AllNames(p, n));
  }

  // ----- impact -----

  datatype Severity = Low | Medium | High

  datatype Summary = Summary(added: nat, removed: nat, updated: nat)

  /** Plain 32-bit addition, as the source's `total`. */
  function Total(s: Summary): nat {
    (s.added + s.removed + s.updated) % (U32_MAX + 1)
  }

  function Count(changes: seq<Change>, kind: ChangeKind): nat {
    if changes == [] then 0
    else Count(changes[..|changes| - 1], kind) + if changes[|changes| - 1].kind == kind then 1 else 0
  }

  function Summarize(changes: seq<Change>): Summary {
    Summary(Min(Count(changes, Added), U32_MAX), Min(Count(changes, Removed), U32_MAX),
            Min(Count(changes, Updated), U32_MAX))
  }

  /** The counting loop, with saturating 32-bit counters. */
  method SummarizeChangeCounts(changes: seq<Change>) returns (s: Summary)
    ensures s == Summarize(changes)
  {
    var added, removed, updated := 0, 0, 0;
    for i := 0 to |changes|
      invariant Summary(added, removed, updated) == Summarize(changes[..i])
    {
      assert changes[..i + 1][..i] == changes[..i];
      match changes[i].kind {
        case Added => added := Min(added + 1, U32_MAX);
        case Removed => removed := Min(removed + 1, U32_MAX);
        case Updated => updated := Min(updated + 1, U32_MAX);
      }
    }
    assert changes[..|changes|] == changes;
    s := Summary(added, removed, updated);
  }

  function SeverityOf(listeners: Summary, routes: Summary, clusters: Summary): Severity {
    var total := Min(Min(Total(listeners) + Total(routes), U32_MAX) + Total(clusters), U32_MAX);
    if listeners.removed > 0 || listeners.updated > 0 || routes.removed > 0 || clusters.removed > 0 then High
    else if routes.updated > 0 || clusters.updated > 0 || listeners.added > 0 || total >= 6 then Medium
    else Low
  }

  datatype Fingerprinter = Fingerprinter(
    listener: ListenerSnapshot -> string, route: RouteSnapshot -> string, cluster: ClusterSnapshot -> string)

  function ListenerOf(l: ListenerSnapshot): string { l.name }

  function RouteOf(r: RouteSnapshot): string { r.name }

  function ClusterOf(c: ClusterSnapshot): string { c.name }

  /** The severity of moving from one view to another. */
  function Impact(fp: Fingerprinter, a: View, b: View): Severity {
    SeverityOf(Summarize(Diff(a.listeners, b.listeners, ListenerOf, fp.listener)),
               Summarize(Diff(a.routes, b.routes, RouteOf, fp.route)),
               Summarize(Diff(a.clusters, b.clusters, ClusterOf, fp.cluster)))
  }

  ghost predicate Faithful(fp: Fingerprinter) {
    Injective(fp.listener) && Injective(fp.route) && Injective(fp.cluster)
  }

  ghost predicate UniquelyNamed(v: View) {
    UniqueNames(v.listeners, ListenerOf) && UniqueNames(v.routes, RouteOf) && UniqueNames(v.clusters, ClusterOf)
  }

  lemma {:induction false} CountZero(changes: seq<Change>, kind: ChangeKind)
    ensures Count(changes, kind) == 0 <==> forall i :: 0 <= i < |changes| ==> changes[i].kind != kind
    decreases |changes|
  {
    if changes != [] {
      CountZero(changes[..|changes| - 1], kind);
      assert changes == changes[..|changes| - 1] + [changes[|changes| - 1]];
    }
  }

  function NewNames(p: Fingerprints, n: Fingerprints, names: seq<string>): set<string> {
    set x | x in names && x !in p && x in n
  }

  lemma NewNamesStep(p: Fingerprints, n: Fingerprints, front: seq<string>, last: string)
    requires last !in front
    ensures |NewNames(p, n, front + [last])| == |NewNames(p, n, front)| + if last !in p && last in n then 1 else 0
  {
    var s := NewNames(p, n, front);
    assert NewNames(p, n, front + [last]) == if last !in p && last in n then s + {last} else s;
  }

  lemma CountSnoc(changes: seq<Change>, c: Change, kind: ChangeKind)
    ensures Count(changes + [c], kind) == Count(changes, kind) + if c.kind == kind then 1 else 0
  {
    assert (changes + [c])[..|changes|] == changes;
  }

  lemma {:induction false} CountAdded(p: Fingerprints, n: Fingerprints, names: seq<string>)
    requires NoDuplicates(names)
    ensures Count(Changes(p, n, names), Added) == |NewNames(p, n, names)|
    decreases |names|
  {
    if names != [] {
      var front, last := names[..|names| - 1], names[|names| - 1];
      CountAdded(p, n, front);
      NewNamesStep(p, n, front, last);
      assert front + [last] == names;
      ChangesSnoc(p, n, front, last);
      if KindOf(p, n, last).Some? {
        CountSnoc(Changes(p, n, front), Change(last, KindOf(p, n, last).value), Added);
      }
    }
  }

  lemma ChangesSnoc(p: Fingerprints, n: Fingerprints, front: seq<string>, last: string)
    ensures Changes(p, n, front + [last])
            == if KindOf(p, n, last).Some? then Changes(p, n, front) + [Change(last, KindOf(p, n, last).value)]
               else Changes(p, n, front)
  {
    assert (front + [last])[..|front|] == front;
  }

  lemma {:induction false} IndexSize<T>(items: seq<T>, name: T -> string, fingerprint: T -> string)
    requires UniqueNames(items, name)
    ensures |Index(items, name, fingerprint)| == |items|
    decreases |items|
  {
    if items != [] {
      var front, last := items[..|items| - 1], items[|items| - 1];
      IndexSize(front, name, fingerprint);
      IndexMeaning(front, name, fingerprint);
      var m := Index(front, name, fingerprint);
      assert name(last) !in m;
      assert m[name(last) := fingerprint(last)].Keys == m.Keys + {name(last)};
      assert |m.Keys| == |m|;
    }
  }

  /** Nothing removed or updated means the earlier resources are all kept as they were. */
  lemma OnlyAdditions<T(!new)>(previous: seq<T>, next: seq<T>, name: T -> string, fingerprint: T -> string)
    requires UniqueNames(previous, name) && UniqueNames(next, name) && Injective(fingerprint)
    ensures
      var d := Diff(previous, next, name, fingerprint);
      Count(d, Removed) == 0 && Count(d, Updated) == 0 <==> Kept(previous, next)
  {
    var d := Diff(previous, next, name, fingerprint);
    CountZero(d, Removed);
    CountZero(d, Updated);
    if Count(d, Removed) == 0 && Count(d, Updated) == 0 {
      forall x | x in previous ensures x in next {
        DiffMember(previous, next, name, fingerprint, Change(name(x), Removed));
        DiffMember(previous, next, name, fingerprint, Change(name(x), Updated));
        UnchangedIsKept(previous, next, name, x);
      }
    }
    if Kept(previous, next) {
      forall i | 0 <= i < |d| ensures d[i].kind == Added {
        DiffMember(previous, next, name, fingerprint, d[i]);
        KeptNotChanged(previous, next, name, d[i]);
      }
    }
  }

  lemma UnchangedIsKept<T(!new)>(previous: seq<T>, next: seq<T>, name: T -> string, x: T)
    requires x in previous && !Happened(previous, next, name, Change(name(x), Removed))
    requires !Happened(previous, next, name, Change(name(x), Updated))
    ensures x in next
  {
    assert Lists(previous, name, name(x), x);
    var y :| Lists(next, name, name(x), y);
    assert x == y;
  }

  lemma KeptNotChanged<T(!new)>(previous: seq<T>, next: seq<T>, name: T -> string, c: Change)
    requires UniqueNames(next, name) && Happened(previous, next, name, c)
    requires Kept(previous, next)
    ensures c.kind == Added
  {
    if c.kind == Removed {
      var x :| Lists(previous, name, c.name, x);
      assert Lists(next, name, c.name, x);
    }
  }

  /** Then the number of additions is the difference in length. */
  lemma AdditionCount<T(!new)>(previous: seq<T>, next: seq<T>, name: T -> string, fingerprint: T -> string)
    requires UniqueNames(previous, name) && UniqueNames(next, name) && Kept(previous, next)
    ensures Count(Diff(previous, next, name, fingerprint), Added) == |next| - |previous|
  {
    var p, n := Index(previous, name, fingerprint), Index(next, name, fingerprint);
    KeptNames(previous, next, name, fingerprint);
    IndexSize(previous, name, fingerprint);
    IndexSize(next, name, fingerprint);
    var names := AllNames(p, n);
    assert NoDuplicates(names);
    CountAdded(p, n, names);
    NewNamesCount(p, n, names);
  }

  lemma KeptNames<T(!new)>(previous: seq<T>, next: seq<T>, name: T -> string, fingerprint: T -> string)
    requires Kept(previous, next)
    ensures Index(previous, name, fingerprint).Keys <= Index(next, name, fingerprint).Keys
  {
    IndexMeaning(previous, name, fingerprint);
    IndexMeaning(next, name, fingerprint);
    forall k | k in Index(previous, name, fingerprint) ensures k in Index(next, name, fingerprint) {
      var i :| 0 <= i < |previous| && name(previous[i]) == k;
      assert previous[i] in next;
    }
  }

  lemma NewNamesCount(p: Fingerprints, n: Fingerprints, names: seq<string>)
    requires p.Keys <= n.Keys && forall x :: x in names <==> x in p || x in n
    ensures |NewNames(p, n, names)| == |n| - |p|
  {
    assert NewNames(p, n, names) == n.Keys - p.Keys;
    assert |n.Keys - p.Keys| == |n.Keys| - |p.Keys|;
    assert |n.Keys| == |n| && |p.Keys| == |p|;
  }

  ghost predicate Kept<T(!new)>(a: seq<T>, b: seq<T>) {
    forall x :: x in a ==> x in b
  }

  /**
   The listeners are the same, every route and cluster is kept, and at most five are new. Security
   settings and policies may differ.
   */
  ghost predicate KeepsResources(a: View, b: View) {
    && Kept(a.listeners, b.listeners) && Kept(b.listeners, a.listeners)
    && Kept(a.routes, b.routes) && Kept(a.clusters, b.clusters)
    && |b.routes| - |a.routes| + |b.clusters| - |a.clusters| <= 5
  }

  lemma SeverityLowExactly(listeners: Summary, routes: Summary, clusters: Summary)
    requires listeners.added <= U32_MAX && routes.added <= U32_MAX && clusters.added <= U32_MAX
    ensures SeverityOf(listeners, routes, clusters) == Low <==>
      && listeners == Summary(0, 0, 0) && routes.removed == 0 && routes.updated == 0
      && clusters.removed == 0 && clusters.updated == 0 && routes.added + clusters.added <= 5
  {
    if listeners == Summary(0, 0, 0) && routes.removed == routes.updated == clusters.removed == clusters.updated == 0 {
      assert Total(listeners) == 0 && Total(routes) == routes.added && Total(clusters) == clusters.added;
    }
  }

  /** The three counts of one kind of resource, in terms of the resources. */
  lemma SummaryMeaning<T(!new)>(previous: seq<T>, next: seq<T>, name: T -> string, fingerprint: T -> string)
    requires UniqueNames(previous, name) && UniqueNames(next, name) && Injective(fingerprint)
    ensures
      var s := Summarize(Diff(previous, next, name, fingerprint));
      && (s.removed == 0 && s.updated == 0 <==> Kept(previous, next))
      && (Kept(previous, next) ==> |next| >= |previous| && s.added == Min(|next| - |previous|, U32_MAX)
                                   && (s.added == 0 <==> Kept(next, previous)))
  {
    OnlyAdditions(previous, next, name, fingerprint);
    if Kept(previous, next) {
      AdditionCount(previous, next, name, fingerprint);
      NoAdditions(previous, next, name, fingerprint);
    }
  }

  /** Neither diff nor impact looks at the security settings or the policies of the workspace. */
  lemma ImpactIgnoresPolicies(fp: Fingerprinter, a: View, b: View, security: string, policies: string)
    ensures Impact(fp, a, b.(security := security, policies := policies)) == Impact(fp, a, b)
  {
  }

  /** Impact is low exactly when the resources are kept. */
  lemma LowImpactExactly(fp: Fingerprinter, a: View, b: View)
    requires Faithful(fp) && UniquelyNamed(a) && UniquelyNamed(b)
    ensures Impact(fp, a, b) == Low <==> KeepsResources(a, b)
  {
    SummaryMeaning(a.listeners, b.listeners, ListenerOf, fp.listener);
    SummaryMeaning(a.routes, b.routes, RouteOf, fp.route);
    SummaryMeaning(a.clusters, b.clusters, ClusterOf, fp.cluster);
    var l := Summarize(Diff(a.listeners, b.listeners, ListenerOf, fp.listener));
    var r := Summarize(Diff(a.routes, b.routes, RouteOf, fp.route));
    var k := Summarize(Diff(a.clusters, b.clusters, ClusterOf, fp.cluster));
    SeverityLowExactly(l, r, k);
  }

  lemma NoAdditions<T(!new)>(previous: seq<T>, next: seq<T>, name: T -> string, fingerprint: T -> string)
    requires UniqueNames(previous, name) && UniqueNames(next, name) && Injective(fingerprint)
    ensures Kept(previous, next) ==>
      (Count(Diff(previous, next, name, fingerprint), Added) == 0 <==> Kept(next, previous))
  {
    OnlyAdditions(next, previous, name, fingerprint);
    OnlyAdditions(previous, next, name, fingerprint);
    DiffSwap(previous, next, name, fingerprint);
    SwapCounts(Diff(previous, next, name, fingerprint), Diff(next, previous, name, fingerprint));
  }

  lemma SwapCounts(d: seq<Change>, e: seq<Change>)
    requires |d| == |e| && forall i :: 0 <= i < |d| ==> e[i] == Swapped(d[i])
    ensures Count(d, Added) == 0 <==> Count(e, Removed) == 0
    ensures Count(d, Updated) == 0 <==> Count(e, Updated) == 0
  {
    CountZero(d, Added);
    CountZero(e, Removed);
    CountZero(d, Updated);
    CountZero(e, Updated);
  }

  /** Order is invisible: rearranging uniquely named resources changes nothing the diff reports. */
  lemma DiffIgnoresOrder<T(!new)>(previous: seq<T>, next: seq<T>, name: T -> string, fingerprint: T -> string)
    requires UniqueNames(previous, name) && UniqueNames(next, name) && Injective(fingerprint)
    requires forall x :: x in previous <==> x in next
    ensures Diff(previous, next, name, fingerprint) == []
  {
    var d := Diff(previous, next, name, fingerprint);
    OnlyAdditions(previous, next, name, fingerprint);
    NoAdditions(previous, next, name, fingerprint);
    CountZero(d, Added);
    CountZero(d, Removed);
    CountZero(d, Updated);
    assert forall c :: c in d ==> c.kind == Added || c.kind == Removed || c.kind == Updated;
  }
}
