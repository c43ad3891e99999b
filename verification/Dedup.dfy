/** Bytecode used by several routes is stored once: the deduplication in `build_plan`. */
module Dedup {
  import opened Bytes
  import opened Compile
  import opened Profile

  type Key = (nat, Route)

  // ---------------------------------------------------------------- the order of routes

  /** The `n`th target when their names are sorted as strings. */
  function SortedTarget(n: nat): nat {
    match n
    case 4 => 5
    case 5 => 4
    case 6 => 10
    case 7 => 9
    case 9 => 6
    case 10 => 7
    case _ => n
  }

  /** `PROFILE3_TARGET_ORDER`. */
  function TargetName(target: nat): string {
    match target
    case 0 => "G1"
    case 1 => "G2"
    case 2 => "G3"
    case 3 => "G4"
    case 4 => "G6"
    case 5 => "G5"
    case 6 => "TILT_LEFT"
    case 7 => "TILT_RIGHT"
    case 8 => "G9"
    case 9 => "G8"
    case 10 => "G7"
    case 11 => "WHEEL_DOWN"
    case 12 => "WHEEL_UP"
    case _ => ""
  }

  function RouteName(r: Route): string {
    (if r.layer == Normal then "NORMAL:" else "GSHIFT:") + TargetName(r.target)
  }

  /** Python's order of strings. */
  predicate Less(a: string, b: string) {
    exists n :: 0 <= n <= |a| && LessAt(a, b, n)
  }

  /** They agree before position `n`, where the first ends or has the smaller character. */
  predicate LessAt(a: string, b: string, n: nat) {
    n <= |a| && n < |b| && a[..n] == b[..n] && (n == |a| || a[n] < b[n])
  }

  /** Where a target comes in that order. */
  function SortedPosition(target: nat): nat {
    match target
    case 5 => 4
    case 4 => 5
    case 10 => 6
    case 9 => 7
    case 6 => 9
    case 7 => 10
    case _ => target
  }

  /** The `n`th route when the route names are sorted: G-Shift routes first. */
  function SortedRoute(n: nat): Route {
    if n < TARGETS then Route(GShift, SortedTarget(n)) else Route(Normal, SortedTarget(n - TARGETS))
  }

  function SortedNumber(r: Route): nat {
    if r.layer == GShift then SortedPosition(r.target) else TARGETS + SortedPosition(r.target)
  }

  lemma SortedIsOneToOne(n: nat)
    requires n < 2 * TARGETS
    ensures IsRoute(SortedRoute(n)) && SortedNumber(SortedRoute(n)) == n
    ensures forall r :: IsRoute(r) && SortedNumber(r) == n ==> r == SortedRoute(n)
    ensures forall r :: IsRoute(r) ==> SortedNumber(r) < 2 * TARGETS
  {}

  lemma TargetsAreSorted(m: nat)
    requires m + 1 < TARGETS
    ensures Less(TargetName(SortedTarget(m)), TargetName(SortedTarget(m + 1)))
  {
    var at := if m <= 7 then 1 else if m == 8 then 0 else if m == 9 then 5 else if m == 10 then 0 else 6;
    assert LessAt(TargetName(SortedTarget(m)), TargetName(SortedTarget(m + 1)), at);
  }

  lemma LessBehind(prefix: string, a: string, b: string)
    requires Less(a, b)
    ensures Less(prefix + a, prefix + b)
  {
    var n :| 0 <= n <= |a| && LessAt(a, b, n);
    var at := |prefix| + n;
    assert (prefix + a)[..at] == prefix + a[..n] && (prefix + b)[..at] == prefix + b[..n];
    assert LessAt(prefix + a, prefix + b, at);
  }

  /** The routes of a profile are visited in the order of their names. */
  lemma RoutesAreSorted(n: nat)
    requires n + 1 < 2 * TARGETS
    ensures Less(RouteName(SortedRoute(n)), RouteName(SortedRoute(n + 1)))
  {
    hide TargetName;
    hide SortedTarget;
    hide Less;
    if n + 1 == TARGETS {
      LayersAreSorted(TargetName(SortedTarget(n)), TargetName(SortedTarget(0)));
    } else if n < TARGETS {
      TargetsAreSorted(n);
      LessBehind("GSHIFT:", TargetName(SortedTarget(n)), TargetName(SortedTarget(n + 1)));
    } else {
      TargetsAreSorted(n - TARGETS);
      LessBehind("NORMAL:", TargetName(SortedTarget(n - TARGETS)), TargetName(SortedTarget(n + 1 - TARGETS)));
    }
  }

  lemma LayersAreSorted(a: string, b: string)
    ensures Less("GSHIFT:" + a, "NORMAL:" + b)
  {
    assert LessAt("GSHIFT:" + a, "NORMAL:" + b, 0);
  }

  predicate Distinct(unique: seq<seq<byte>>) {
    forall i, j :: 0 <= i < j < |unique| ==> unique[i] != unique[j]
  }

  /** Each macro route points at its own bytecode in a list without repetition. */
  ghost predicate Deduplicated(items: map<Key, Item>, unique: seq<seq<byte>>, macroOf: map<Key, nat>) {
    Distinct(unique) &&
    (forall k :: k in macroOf ==>
       k in items && items[k].MacroItem? && macroOf[k] < |unique| && unique[macroOf[k]] == items[k].bytecode) &&
    forall i :: 0 <= i < |unique| ==> Used(macroOf, i)
  }

  /** Every macro route is in the list, and indices follow the first routes that use them. */
  ghost predicate InRouteOrder(items: map<Key, Item>, macroOf: map<Key, nat>) {
    (forall k :: k in items && items[k].MacroItem? ==> k in macroOf && IsRoute(k.1)) &&
    forall k, i :: k in macroOf && 0 <= i < macroOf[k] ==> UsedBefore(macroOf, i, k)
  }

  ghost predicate UsedBefore(macroOf: map<Key, nat>, i: int, k: Key) {
    exists j :: j in macroOf && macroOf[j] == i && Rank(j) < Rank(k)
  }

  /** Profiles in ascending order, and within a profile its routes by name. */
  function Rank(k: Key): nat {
    2 * TARGETS * k.0 + SortedNumber(k.1)
  }

  ghost predicate Used(macroOf: map<Key, nat>, i: int) {
    exists k :: k in macroOf && macroOf[k] == i
  }

  predicate Earlier(k: Key, p: nat, n: nat) {
    k.0 < p || (k.0 == p && SortedNumber(k.1) < n)
  }

  ghost predicate MacrosUpTo(items: map<Key, Item>, macroOf: map<Key, nat>, p: nat, n: nat) {
    forall k :: k in items && IsRoute(k.1) && items[k].MacroItem? && Earlier(k, p, n) ==> k in macroOf
  }

  /** `hash_to_index`, with the bytecode itself in place of its digest. */
  ghost predicate Indexes(index: map<seq<byte>, nat>, unique: seq<seq<byte>>) {
    (forall b :: b in index ==> index[b] < |unique| && unique[index[b]] == b) &&
    forall i :: 0 <= i < |unique| ==> unique[i] in index
  }

  lemma AddMacro(items: map<Key, Item>, unique: seq<seq<byte>>, macroOf: map<Key, nat>, k: Key)
    requires Deduplicated(items, unique, macroOf) && k in items && items[k].MacroItem? && k !in macroOf
    requires items[k].bytecode !in unique
    ensures Deduplicated(items, unique + [items[k].bytecode], macroOf[k := |unique|])
  {
    var after := macroOf[k := |unique|];
    forall i | 0 <= i < |unique| + 1
      ensures Used(after, i)
    {
      if i == |unique| {
        assert k in after && after[k] == i;
      } else {
        assert Used(macroOf, i);
        var j :| j in macroOf && macroOf[j] == i;
        assert j in after && after[j] == i;
      }
    }
  }

  lemma ShareMacro(items: map<Key, Item>, unique: seq<seq<byte>>, macroOf: map<Key, nat>, k: Key, i: nat)
    requires Deduplicated(items, unique, macroOf) && k in items && items[k].MacroItem? && k !in macroOf
    requires i < |unique| && unique[i] == items[k].bytecode
    ensures Deduplicated(items, unique, macroOf[k := i])
  {
    var after := macroOf[k := i];
    forall m | 0 <= m < |unique|
      ensures Used(after, m)
    {
      assert Used(macroOf, m);
      var j :| j in macroOf && macroOf[j] == m;
      assert j in after && after[j] == m;
    }
  }

  ghost predicate Ordered(macroOf: map<Key, nat>) {
    forall k, i :: k in macroOf && 0 <= i < macroOf[k] ==> UsedBefore(macroOf, i, k)
  }

  /** Routes visited earlier have smaller ranks. */
  lemma LaterRank(macroOf: map<Key, nat>, p: nat, n: nat)
    requires n < 2 * TARGETS
    requires forall k :: k in macroOf ==> IsRoute(k.1) && (k.0 < p || (k.0 == p && SortedNumber(k.1) < n))
    ensures forall k :: k in macroOf ==> Rank(k) < Rank((p, SortedRoute(n)))
  {
    SortedIsOneToOne(n);
  }

  /** A route visited after all others keeps the order, whatever index it gets. */
  lemma NextInOrder(items: map<Key, Item>, unique: seq<seq<byte>>, macroOf: map<Key, nat>, k: Key, at: nat)
    requires Deduplicated(items, unique, macroOf) && Ordered(macroOf) && k !in macroOf && at <= |unique|
    requires forall j :: j in macroOf ==> Rank(j) < Rank(k)
    ensures Ordered(macroOf[k := at])
  {
    hide Rank;
    var after := macroOf[k := at];
    forall l, i | l in after && 0 <= i < after[l]
      ensures UsedBefore(after, i, l)
    {
      assert if l == k then Used(macroOf, i) else UsedBefore(macroOf, i, l);
      var j :| j in macroOf && macroOf[j] == i && Rank(j) < Rank(l);
      assert j in after && after[j] == i && Rank(j) < Rank(l);
    }
  }

  /** The routes of one profile, in sorted order. */
  method DeduplicateProfile(items: map<Key, Item>, p: nat, unique0: seq<seq<byte>>, macroOf0: map<Key, nat>,
                            index0: map<seq<byte>, nat>)
    returns (unique: seq<seq<byte>>, macroOf: map<Key, nat>, index: map<seq<byte>, nat>)
    requires Deduplicated(items, unique0, macroOf0) && Indexes(index0, unique0) && MacrosUpTo(items, macroOf0, p, 0)
    requires (forall k :: k in macroOf0 ==> k.0 < p && IsRoute(k.1)) && Ordered(macroOf0)
    ensures Deduplicated(items, unique, macroOf) && Indexes(index, unique) && MacrosUpTo(items, macroOf, p + 1, 0)
    ensures (forall k :: k in macroOf ==> k.0 < p + 1 && IsRoute(k.1)) && Ordered(macroOf)
  {
    hide Deduplicated;
    hide Ordered;
    hide Rank;
    unique, macroOf, index := unique0, macroOf0, index0;
    SortedIsOneToOne(0);
    for n := 0 to 2 * TARGETS
      invariant Deduplicated(items, unique, macroOf) && Indexes(index, unique) && MacrosUpTo(items, macroOf, p, n)
      invariant forall k :: k in macroOf ==> IsRoute(k.1) && (k.0 < p || (k.0 == p && SortedNumber(k.1) < n))
      invariant Ordered(macroOf)
    {
      var route := SortedRoute(n);
      SortedIsOneToOne(n);
      var k: Key := (p, route);
      if k in items && items[k].MacroItem? {
        var bytecode := items[k].bytecode;
        LaterRank(macroOf, p, n);
        NextInOrder(items, unique, macroOf, k, if bytecode in index then index[bytecode] else |unique|);
        if bytecode !in index {
          AddMacro(items, unique, macroOf, k);
          index := index[bytecode := |unique|];
          macroOf := macroOf[k := |unique|];
          unique := unique + [bytecode];
        } else {
          ShareMacro(items, unique, macroOf, k, index[bytecode]);
          macroOf := macroOf[k := index[bytecode]];
        }
      }
    }
  }

  method Deduplicate(items: map<Key, Item>) returns (unique: seq<seq<byte>>, macroOf: map<Key, nat>)
    requires forall k :: k in items ==> 2 <= k.0 <= 5 && IsRoute(k.1)
    ensures Deduplicated(items, unique, macroOf) && InRouteOrder(items, macroOf)
  {
    unique, macroOf := [], map[];
    var index: map<seq<byte>, nat> := map[];
    for p := 2 to 6
      invariant Deduplicated(items, unique, macroOf) && Indexes(index, unique) && MacrosUpTo(items, macroOf, p, 0)
      invariant (forall k :: k in macroOf ==> k.0 < p && IsRoute(k.1)) && Ordered(macroOf)
    {
      unique, macroOf, index := DeduplicateProfile(items, p, unique, macroOf, index);
    }
  }

  // ---------------------------------------------------------------- no choice is left

  /** Both lists, or neither, give their next index to a route that is the first to use it. */
  lemma {:induction false} SameNext(items: map<Key, Item>, u: seq<seq<byte>>, m: map<Key, nat>, v: seq<seq<byte>>,
                                    l: map<Key, nat>, n: nat, k: Key)
    requires Deduplicated(items, u, m) && InRouteOrder(items, m) && Deduplicated(items, v, l) && InRouteOrder(items, l)
    requires n <= |u| && n <= |v| && u[..n] == v[..n] && k in m && m[k] == n
    ensures n < |u| && n < |v| && u[n] == v[n]
    decreases Rank(k)
  {
    hide Rank;
    forall i | 0 <= i < n
      ensures u[i] == v[i]
    {
      assert u[..n][i] == v[..n][i];
    }
    assert k in l && v[l[k]] == u[n];
    if l[k] > n {
      assert UsedBefore(l, n, k);
      var j :| j in l && l[j] == n && Rank(j) < Rank(k);
      SameNext(items, v, l, u, m, n, j);
    }
  }

  lemma UserOf(items: map<Key, Item>, u: seq<seq<byte>>, m: map<Key, nat>, i: nat) returns (k: Key)
    requires Deduplicated(items, u, m) && i < |u|
    ensures k in m && m[k] == i
  {
    assert Used(m, i);
    k :| k in m && m[k] == i;
  }

  lemma {:induction false} SamePrefix(items: map<Key, Item>, u: seq<seq<byte>>, m: map<Key, nat>, v: seq<seq<byte>>,
                                      l: map<Key, nat>, n: nat)
    requires Deduplicated(items, u, m) && InRouteOrder(items, m) && Deduplicated(items, v, l) && InRouteOrder(items, l)
    requires n <= |u|
    ensures n <= |v| && u[..n] == v[..n]
  {
    hide Deduplicated;
    hide InRouteOrder;
    if n > 0 {
      SamePrefix(items, u, m, v, l, n - 1);
      var k := UserOf(items, u, m, n - 1);
      SameNext(items, u, m, v, l, n - 1, k);
      assert u[..n] == u[..n - 1] + [u[n - 1]] && v[..n] == v[..n - 1] + [v[n - 1]];
    }
  }

  /** MAIN RESULT. The compiled routes alone determine the list of macros, its order and the
      index of every route. */
  lemma DedupIsUnique(items: map<Key, Item>, u: seq<seq<byte>>, m: map<Key, nat>, v: seq<seq<byte>>, l: map<Key, nat>)
    requires Deduplicated(items, u, m) && InRouteOrder(items, m) && Deduplicated(items, v, l) && InRouteOrder(items, l)
    ensures u == v && m == l
  {
    SamePrefix(items, u, m, v, l, |u|);
    SamePrefix(items, v, l, u, m, |v|);
    assert u == u[..|u|] && v == v[..|v|];
    forall k | k in m
      ensures k in l && m[k] == l[k]
    {
      assert u[m[k]] == u[l[k]];
    }
  }
}
