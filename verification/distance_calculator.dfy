/**
 * The Navi Mumbai distance lookup: a fixed, ordered table of base locations,
 * each with an ordered list of target locations and distances in kilometres,
 * searched by lower-cased substring containment, first match wins.
 */
module DistanceCalculator {
  import opened Optional
  import opened Text

  /** The targets of one base, in the object's insertion order. */
  type DistanceMap = seq<(string, real)>

  /** The bases with their targets, in the object's insertion order. */
  type Table = seq<(string, DistanceMap)>

  /** `naviMumbaiDistances`, in declaration order. */
  const NaviMumbaiDistances: Table := [
      ("vashi", [
        ("nerul", 5.2),
        ("belapur", 8.7),
        ("kharghar", 12.5),
        ("panvel", 19.8),
        ("airoli", 7.3),
        ("ghansoli", 4.6),
        ("kopar khairane", 3.2),
        ("sanpada", 1.8),
        ("juinagar", 3.5),
        ("seawoods", 6.1),
        ("cbd belapur", 8.7),
        ("khanda colony", 15.3),
        ("taloja", 22.4)
      ]),
      ("nerul", [
        ("vashi", 5.2),
        ("belapur", 3.5),
        ("kharghar", 7.3),
        ("panvel", 14.6),
        ("airoli", 12.5),
        ("ghansoli", 9.8),
        ("kopar khairane", 8.4),
        ("sanpada", 3.4),
        ("juinagar", 1.7),
        ("seawoods", 0.9),
        ("cbd belapur", 3.5),
        ("khanda colony", 10.1),
        ("taloja", 17.2)
      ]),
      ("belapur", [
        ("vashi", 8.7),
        ("nerul", 3.5),
        ("kharghar", 3.8),
        ("panvel", 11.1),
        ("airoli", 16.0),
        ("ghansoli", 13.3),
        ("kopar khairane", 11.9),
        ("sanpada", 6.9),
        ("juinagar", 5.2),
        ("seawoods", 2.6),
        ("cbd belapur", 0.0),
        ("khanda colony", 6.6),
        ("taloja", 13.7)
      ]),
      ("kharghar", [
        ("vashi", 12.5),
        ("nerul", 7.3),
        ("belapur", 3.8),
        ("panvel", 7.3),
        ("airoli", 19.8),
        ("ghansoli", 17.1),
        ("kopar khairane", 15.7),
        ("sanpada", 10.7),
        ("juinagar", 9.0),
        ("seawoods", 6.4),
        ("cbd belapur", 3.8),
        ("khanda colony", 2.8),
        ("taloja", 9.9)
      ]),
      ("panvel", [
        ("vashi", 19.8),
        ("nerul", 14.6),
        ("belapur", 11.1),
        ("kharghar", 7.3),
        ("airoli", 27.1),
        ("ghansoli", 24.4),
        ("kopar khairane", 23.0),
        ("sanpada", 18.0),
        ("juinagar", 16.3),
        ("seawoods", 13.7),
        ("cbd belapur", 11.1),
        ("khanda colony", 4.5),
        ("taloja", 9.1)
      ]),
      ("airoli", [
        ("vashi", 7.3),
        ("nerul", 12.5),
        ("belapur", 16.0),
        ("kharghar", 19.8),
        ("panvel", 27.1),
        ("ghansoli", 2.7),
        ("kopar khairane", 4.1),
        ("sanpada", 9.1),
        ("juinagar", 10.8),
        ("seawoods", 13.4),
        ("cbd belapur", 16.0),
        ("khanda colony", 22.6),
        ("taloja", 29.7)
      ]),
      ("ghansoli", [
        ("vashi", 4.6),
        ("nerul", 9.8),
        ("belapur", 13.3),
        ("kharghar", 17.1),
        ("panvel", 24.4),
        ("airoli", 2.7),
        ("kopar khairane", 1.4),
        ("sanpada", 6.4),
        ("juinagar", 8.1),
        ("seawoods", 10.7),
        ("cbd belapur", 13.3),
        ("khanda colony", 19.9),
        ("taloja", 27.0)
      ]),
      ("kopar khairane", [
        ("vashi", 3.2),
        ("nerul", 8.4),
        ("belapur", 11.9),
        ("kharghar", 15.7),
        ("panvel", 23.0),
        ("airoli", 4.1),
        ("ghansoli", 1.4),
        ("sanpada", 5.0),
        ("juinagar", 6.7),
        ("seawoods", 9.3),
        ("cbd belapur", 11.9),
        ("khanda colony", 18.5),
        ("taloja", 25.6)
      ]),
      ("sanpada", [
        ("vashi", 1.8),
        ("nerul", 3.4),
        ("belapur", 6.9),
        ("kharghar", 10.7),
        ("panvel", 18.0),
        ("airoli", 9.1),
        ("ghansoli", 6.4),
        ("kopar khairane", 5.0),
        ("juinagar", 1.7),
        ("seawoods", 4.3),
        ("cbd belapur", 6.9),
        ("khanda colony", 13.5),
        ("taloja", 20.6)
      ]),
      ("juinagar", [
        ("vashi", 3.5),
        ("nerul", 1.7),
        ("belapur", 5.2),
        ("kharghar", 9.0),
        ("panvel", 16.3),
        ("airoli", 10.8),
        ("ghansoli", 8.1),
        ("kopar khairane", 6.7),
        ("sanpada", 1.7),
        ("seawoods", 2.6),
        ("cbd belapur", 5.2),
        ("khanda colony", 11.8),
        ("taloja", 18.9)
      ]),
      ("seawoods", [
        ("vashi", 6.1),
        ("nerul", 0.9),
        ("belapur", 2.6),
        ("kharghar", 6.4),
        ("panvel", 13.7),
        ("airoli", 13.4),
        ("ghansoli", 10.7),
        ("kopar khairane", 9.3),
        ("sanpada", 4.3),
        ("juinagar", 2.6),
        ("cbd belapur", 2.6),
        ("khanda colony", 9.2),
        ("taloja", 16.3)
      ])
    ]

  /** Where a lookup hit: the base's index, the target's index in that base's
      map, and whether the reverse check (destination holds the base) found it. */
  datatype Hit = Hit(base: nat, target: nat, reversed: bool)

  predicate ValidHit(t: Table, h: Hit) {
    h.base < |t| && h.target < |t[h.base].1|
  }

  /** The distance stored at a hit. */
  function HitDistance(t: Table, h: Hit): real
    requires ValidHit(t, h)
  {
    t[h.base].1[h.target].1
  }

  /** Some target of `m` is contained in `s`. */
  ghost predicate AnyTarget(m: DistanceMap, s: string) {
    exists j :: 0 <= j < |m| && Contains(s, m[j].0)
  }

  /** `j` is the earliest target of `m` contained in `s`. */
  ghost predicate FirstTargetAt(m: DistanceMap, s: string, j: nat) {
    j < |m| && Contains(s, m[j].0) && forall k :: 0 <= k < j ==> !Contains(s, m[k].0)
  }

  /** The forward check succeeds at base `e`: the origin holds the base and the destination holds one of its targets. */
  ghost predicate ForwardHit(e: (string, DistanceMap), origin: string, destination: string) {
    Contains(origin, e.0) && AnyTarget(e.1, destination)
  }

  /** The reverse check succeeds at base `e`: the destination holds the base and the origin holds one of its targets. */
  ghost predicate ReverseHit(e: (string, DistanceMap), origin: string, destination: string) {
    Contains(destination, e.0) && AnyTarget(e.1, origin)
  }

  ghost predicate BaseHit(e: (string, DistanceMap), origin: string, destination: string) {
    ForwardHit(e, origin, destination) || ReverseHit(e, origin, destination)
  }

  /** `h` is the hit that the first-match search stops at: no earlier base hits
      in either direction; at its base the forward check wins over the
      reverse one; within the base's map the earliest contained target wins. */
  ghost predicate IsFirstHit(t: Table, origin: string, destination: string, h: Hit) {
    IsFirstHitFrom(t, origin, destination, h, 0)
  }

  /** As `IsFirstHit`, for the search that starts at base `from`. */
  ghost predicate IsFirstHitFrom(t: Table, origin: string, destination: string, h: Hit, from: nat) {
    && ValidHit(t, h)
    && from <= h.base
    && (forall k :: from <= k < h.base ==> !BaseHit(t[k], origin, destination))
    && if !h.reversed then
         Contains(origin, t[h.base].0) && FirstTargetAt(t[h.base].1, destination, h.target)
       else
         && !ForwardHit(t[h.base], origin, destination)
         && Contains(destination, t[h.base].0)
         && FirstTargetAt(t[h.base].1, origin, h.target)
  }

  /** The inner loop from position `j` on: the first target at `j` or later contained in `s`. */
  function FindTargetFrom(m: DistanceMap, s: string, j: nat): Option<nat>
    requires j <= |m|
    decreases |m| - j
  {
    if j == |m| then None
    else if Contains(s, m[j].0) then Some(j)
    else FindTargetFrom(m, s, j + 1)
  }

  /** The inner loop over a base's map: the index of the first target contained in `s`. */
  function FindTarget(m: DistanceMap, s: string): Option<nat> {
    FindTargetFrom(m, s, 0)
  }

  /** The outer loop from base `i` on, with both directions checked per base. */
  function ResolveFrom(t: Table, origin: string, destination: string, i: nat): Option<Hit>
    requires i <= |t|
    decreases |t| - i
  {
    if i == |t| then None
    else
      var forward := FindTarget(t[i].1, destination);
      var reverse := FindTarget(t[i].1, origin);
      if Contains(origin, t[i].0) && forward.Some? then
        Some(Hit(i, forward.value, false))
      else if Contains(destination, t[i].0) && reverse.Some? then
        Some(Hit(i, reverse.value, true))
      else
        ResolveFrom(t, origin, destination, i + 1)
  }

  /** The whole search over `t`, on already lower-cased strings. */
  function Resolve(t: Table, origin: string, destination: string): Option<Hit> {
    ResolveFrom(t, origin, destination, 0)
  }

  /** The inner loop from `j` on returns the earliest contained target at `j`
      or later, and None exactly when there is none. */
  lemma {:induction false} FindTargetFromSpec(m: DistanceMap, s: string, j: nat)
    requires j <= |m|
    ensures FindTargetFrom(m, s, j).None? <==> forall k :: j <= k < |m| ==> !Contains(s, m[k].0)
    ensures FindTargetFrom(m, s, j).Some? ==>
              var r := FindTargetFrom(m, s, j).value;
              j <= r < |m| && Contains(s, m[r].0) && forall k :: j <= k < r ==> !Contains(s, m[k].0)
    decreases |m| - j
  {
    if j < |m| && !Contains(s, m[j].0) {
      FindTargetFromSpec(m, s, j + 1);
    }
  }

  /** The inner loop returns the earliest target contained in `s`, and None
      exactly when no target is contained in `s`. */
  lemma FindTargetSpec(m: DistanceMap, s: string)
    ensures FindTarget(m, s).None? <==> !AnyTarget(m, s)
    ensures FindTarget(m, s).Some? ==> FirstTargetAt(m, s, FindTarget(m, s).value)
  {
    FindTargetFromSpec(m, s, 0);
  }

  /** The outer loop from base `i` on returns the first hit at `i` or later,
      and None exactly when no base from `i` on passes either check. */
  lemma {:induction false} ResolveFromSpec(t: Table, origin: string, destination: string, i: nat)
    requires i <= |t|
    ensures ResolveFrom(t, origin, destination, i).None? <==>
              forall k :: i <= k < |t| ==> !BaseHit(t[k], origin, destination)
    ensures ResolveFrom(t, origin, destination, i).Some? ==>
              IsFirstHitFrom(t, origin, destination, ResolveFrom(t, origin, destination, i).value, i)
    decreases |t| - i
  {
    if i < |t| {
      FindTargetSpec(t[i].1, destination);
      FindTargetSpec(t[i].1, origin);
      ResolveFromSpec(t, origin, destination, i + 1);
    }
  }

  /** The search answers None exactly when no base passes the forward or the
      reverse check, and otherwise answers a first hit. */
  lemma ResolveSpec(t: Table, origin: string, destination: string)
    ensures Resolve(t, origin, destination).None? <==> forall k :: 0 <= k < |t| ==> !BaseHit(t[k], origin, destination)
    ensures Resolve(t, origin, destination).Some? ==> IsFirstHit(t, origin, destination, Resolve(t, origin, destination).value)
  {
    ResolveFromSpec(t, origin, destination, 0);
  }

  /** `calculateNaviMumbaiDistance`: the distance at the first hit for the
      lower-cased inputs, or None (`null`) when nothing matches. */
  function NaviMumbaiDistance(origin: string, destination: string): Option<real> {
    match Resolve(NaviMumbaiDistances, ToLower(origin), ToLower(destination))
    case None => None
    case Some(h) =>
      ResolveSpec(NaviMumbaiDistances, ToLower(origin), ToLower(destination));
      Some(HitDistance(NaviMumbaiDistances, h))
  }

  /** The lookup answers None exactly when no base passes the forward or the
      reverse check on the lower-cased inputs. */
  lemma NaviMumbaiDistanceMissIff(origin: string, destination: string)
    ensures NaviMumbaiDistance(origin, destination).None? <==>
              forall k :: 0 <= k < |NaviMumbaiDistances| ==>
                !BaseHit(NaviMumbaiDistances[k], ToLower(origin), ToLower(destination))
  {
    ResolveSpec(NaviMumbaiDistances, ToLower(origin), ToLower(destination));
  }

  /** A found distance is the one stored at the first hit on the lower-cased
      inputs, hence a value the table stores. */
  lemma NaviMumbaiDistanceAtFirstHit(origin: string, destination: string)
    ensures NaviMumbaiDistance(origin, destination).Some? ==>
              exists h :: IsFirstHit(NaviMumbaiDistances, ToLower(origin), ToLower(destination), h)
                          && NaviMumbaiDistance(origin, destination).value == HitDistance(NaviMumbaiDistances, h)
  {
    ResolveSpec(NaviMumbaiDistances, ToLower(origin), ToLower(destination));
  }

  /** The loops of `calculateNaviMumbaiDistance`, over any table: for each
      base in order, the forward scan of its map and then the reverse one,
      returning from inside the loop at the first hit. */
  method ScanTable(t: Table, originLower: string, destinationLower: string) returns (r: Option<real>)
    ensures r.None? <==> Resolve(t, originLower, destinationLower).None?
    ensures r.Some? ==>
              var h := Resolve(t, originLower, destinationLower).value;
              ValidHit(t, h) && r.value == HitDistance(t, h)
  {
    var i := 0;
    while i < |t|
      invariant 0 <= i <= |t|
      invariant Resolve(t, originLower, destinationLower) == ResolveFrom(t, originLower, destinationLower, i)
    {
      var baseLocation := t[i].0;
      var distances := t[i].1;
      if Contains(originLower, baseLocation) {
        var j := 0;
        while j < |distances|
          invariant 0 <= j <= |distances|
          invariant FindTarget(distances, destinationLower) == FindTargetFrom(distances, destinationLower, j)
        {
          if Contains(destinationLower, distances[j].0) {
            return Some(distances[j].1);
          }
          j := j + 1;
        }
      }
      // The reverse scan: the destination holds the base.
      if Contains(destinationLower, baseLocation) {
        var j := 0;
        while j < |distances|
          invariant 0 <= j <= |distances|
          invariant FindTarget(distances, originLower) == FindTargetFrom(distances, originLower, j)
        {
          if Contains(originLower, distances[j].0) {
            return Some(distances[j].1);
          }
          j := j + 1;
        }
      }
      i := i + 1;
    }
    return None;
  }

  /** `calculateNaviMumbaiDistance` as written: lower-case both inputs and
      scan the Navi Mumbai table. */
  method CalculateNaviMumbaiDistance(origin: string, destination: string) returns (r: Option<real>)
    ensures r == NaviMumbaiDistance(origin, destination)
  {
    r := ScanTable(NaviMumbaiDistances, ToLower(origin), ToLower(destination));
  }

  /** A first hit is a hit: its base passes the forward or the reverse check. */
  lemma FirstHitIsBaseHit(t: Table, origin: string, destination: string, h: Hit, from: nat)
    requires IsFirstHitFrom(t, origin, destination, h, from)
    ensures BaseHit(t[h.base], origin, destination)
  {
  }

  /** At most one target index is the earliest one contained in `s`. */
  lemma FirstTargetUnique(m: DistanceMap, s: string, j1: nat, j2: nat)
    requires FirstTargetAt(m, s, j1) && FirstTargetAt(m, s, j2)
    ensures j1 == j2
  {
  }

  /** The first-hit conditions pin the hit down: at most one hit satisfies them. */
  lemma FirstHitUnique(t: Table, origin: string, destination: string, h1: Hit, h2: Hit)
    requires IsFirstHit(t, origin, destination, h1) && IsFirstHit(t, origin, destination, h2)
    ensures h1 == h2
  {
    FirstHitIsBaseHit(t, origin, destination, h1, 0);
    FirstHitIsBaseHit(t, origin, destination, h2, 0);
    assert h1.base == h2.base;
    assert h1.reversed == h2.reversed;
    if h1.reversed {
      FirstTargetUnique(t[h1.base].1, origin, h1.target, h2.target);
    } else {
      FirstTargetUnique(t[h1.base].1, destination, h1.target, h2.target);
    }
  }

  /** The search returns exactly the first hit: earliest base, forward before
      reverse, earliest target. */
  lemma ResolveIsFirstHit(t: Table, origin: string, destination: string, h: Hit)
    ensures Resolve(t, origin, destination) == Some(h) <==> IsFirstHit(t, origin, destination, h)
  {
    var r := Resolve(t, origin, destination);
    ResolveSpec(t, origin, destination);
    if IsFirstHit(t, origin, destination, h) {
      FirstHitIsBaseHit(t, origin, destination, h, 0);
      FirstHitUnique(t, origin, destination, r.value, h);
    }
  }

  /** When a base passes the forward check and no earlier base passes either
      check, that base's forward match is the answer. */
  lemma ForwardWinsAtFirstBase(t: Table, origin: string, destination: string, i: nat)
    requires i < |t| && ForwardHit(t[i], origin, destination)
    requires forall k :: 0 <= k < i ==> !BaseHit(t[k], origin, destination)
    ensures Resolve(t, origin, destination).Some?
    ensures var h := Resolve(t, origin, destination).value;
            h.base == i && !h.reversed && FirstTargetAt(t[i].1, destination, h.target)
  {
    FindTargetSpec(t[i].1, destination);
    ResolveIsFirstHit(t, origin, destination, Hit(i, FindTarget(t[i].1, destination).value, false));
  }

  /** A target whose key contains an earlier target's key is never the match,
      in either direction: whatever contains it contains the earlier key too. */
  lemma ShadowedTargetNeverFound(m: DistanceMap, s: string, j: nat, k: nat)
    requires j < k < |m| && Contains(m[k].0, m[j].0)
    ensures FindTarget(m, s) != Some(k)
  {
    FindTargetSpec(m, s);
    if FindTarget(m, s) == Some(k) {
      ContainsTransitive(s, m[k].0, m[j].0);
      assert false;
    }
  }

  /** Only the lower-cased inputs matter: the lookup is case-insensitive. */
  lemma NaviMumbaiDistanceCaseInsensitive(origin: string, destination: string)
    ensures NaviMumbaiDistance(ToLower(origin), ToLower(destination)) == NaviMumbaiDistance(origin, destination)
  {
    ToLowerIdempotent(origin);
    ToLowerIdempotent(destination);
  }
}
