/**
 * Current-zone resolution: among the zones the directory returns, pick the
 * nearest one whose boundary contains the user, or the nearest one overall
 * when none does.
 */
module CurrentZone {
  import opened Wrappers
  import opened Geo

  /** A zone snapshot as returned by the zone directory. */
  datatype Zone = Zone(id: string, name: string, center: Coords, radius: real, activeUsersCount: int)

  /** The distance from `p` to the zone's centre. */
  function DistanceTo(z: Zone, p: Coords, dist: Distance): real
  {
    dist(p, z.center)
  }

  /** The zone's boundary contains `p`: the centre is at most the radius away, boundary included. */
  predicate Contains(z: Zone, p: Coords, dist: Distance): (b: bool)
    ensures b <==> dist(p, z.center) <= z.radius
    ensures DistanceTo(z, p, dist) == z.radius ==> b
  {
    DistanceTo(z, p, dist) <= z.radius
  }

  /** `list.filter(z => dist <= z.radius)`. */
  function Inside(list: seq<Zone>, p: Coords, dist: Distance): (r: seq<Zone>)
    ensures |r| <= |list|
    ensures forall z :: z in r <==> z in list && Contains(z, p, dist)
  {
    if list == [] then []
    else if Contains(list[0], p, dist) then [list[0]] + Inside(list[1..], p, dist)
    else Inside(list[1..], p, dist)
  }

  /** Filtering is order-preserving: it distributes over concatenation. */
  lemma {:induction false} InsideAppend(a: seq<Zone>, b: seq<Zone>, p: Coords, dist: Distance)
    ensures Inside(a + b, p, dist) == Inside(a, p, dist) + Inside(b, p, dist)
  {
    if a == [] {
      assert a + b == b;
    } else {
      assert (a + b)[1..] == a[1..] + b;
      InsideAppend(a[1..], b, p, dist);
    }
  }

  /** Every containing zone among the first `n` of `list` is among the first `k` of `s`. */
  predicate CoveredBy(list: seq<Zone>, n: int, s: seq<Zone>, k: int, p: Coords, dist: Distance)
    requires 0 <= n <= |list| && 0 <= k <= |s|
  {
    forall j :: 0 <= j < n && Contains(list[j], p, dist) ==> list[j] in s[..k]
  }

  /**
   * The `k`-th containing zone sits at index `n` of `list`, and every
   * containing zone listed before it is among the first `k`.
   */
  lemma {:induction false} InsideOrder(list: seq<Zone>, k: int, p: Coords, dist: Distance) returns (n: int)
    requires 0 <= k < |Inside(list, p, dist)|
    ensures 0 <= n < |list| && list[n] == Inside(list, p, dist)[k]
    ensures CoveredBy(list, n, Inside(list, p, dist), k, p, dist)
    decreases |list|
  {
    var all := Inside(list, p, dist);
    var rest := list[1..];
    var tail := Inside(rest, p, dist);
    if Contains(list[0], p, dist) {
      assert all == [list[0]] + tail;
      if k == 0 {
        n := 0;
      } else {
        var n1 := InsideOrder(rest, k - 1, p, dist);
        n := n1 + 1;
        assert all[..k] == [list[0]] + tail[..k - 1];
        forall j | 0 <= j < n && Contains(list[j], p, dist) ensures list[j] in all[..k] {
          if j > 0 {
            assert rest[j - 1] == list[j];
          }
        }
      }
    } else {
      assert all == tail;
      var n1 := InsideOrder(rest, k, p, dist);
      n := n1 + 1;
      forall j | 0 <= j < n && Contains(list[j], p, dist) ensures list[j] in all[..k] {
        assert rest[j - 1] == list[j];
      }
    }
  }

  /** `inside.length > 0 ? inside : list`. */
  function Candidates(list: seq<Zone>, p: Coords, dist: Distance): (r: seq<Zone>)
    ensures |r| == 0 <==> |list| == 0
    ensures (exists z :: z in list && Contains(z, p, dist)) ==>
      forall z :: z in r <==> z in list && Contains(z, p, dist)
    ensures (forall z :: z in list ==> !Contains(z, p, dist)) ==> r == list
  {
    var inside := Inside(list, p, dist);
    if |inside| > 0 then
      assert inside[0] in inside;
      inside
    else
      assert forall z :: z in list ==> !Contains(z, p, dist);
      list
  }

  /**
   * The `reduce` step by step: keep `best` unless a later zone is strictly
   * closer, so that the earliest of equally near zones wins.
   */
  function Reduce(best: Zone, rest: seq<Zone>, p: Coords, dist: Distance): (r: Zone)
    ensures r == best || r in rest
    ensures DistanceTo(r, p, dist) <= DistanceTo(best, p, dist)
    ensures forall z :: z in rest ==> DistanceTo(r, p, dist) <= DistanceTo(z, p, dist)
    decreases |rest|
  {
    if rest == [] then best
    else
      var z := rest[0];
      Reduce(if DistanceTo(z, p, dist) < DistanceTo(best, p, dist) then z else best, rest[1..], p, dist)
  }

  /** `candidates.reduce(...)` over a non-empty list: a nearest candidate. */
  function Nearest(cands: seq<Zone>, p: Coords, dist: Distance): (z: Zone)
    requires |cands| > 0
    ensures z in cands
    ensures forall y :: y in cands ==> DistanceTo(z, p, dist) <= DistanceTo(y, p, dist)
  {
    Reduce(cands[0], cands[1..], p, dist)
  }

  /** `s[k]` is of minimal distance in `s`, and every zone before it is strictly farther. */
  predicate FirstMinimal(s: seq<Zone>, k: int, p: Coords, dist: Distance)
  {
    && 0 <= k < |s|
    && (forall j :: 0 <= j < |s| ==> DistanceTo(s[k], p, dist) <= DistanceTo(s[j], p, dist))
    && (forall j :: 0 <= j < k ==> DistanceTo(s[j], p, dist) > DistanceTo(s[k], p, dist))
  }

  /** The reduce picks the FIRST zone of minimal distance, because it replaces only on strict `<`. */
  lemma {:induction false} ReduceFirstMinimal(best: Zone, rest: seq<Zone>, k: int, p: Coords, dist: Distance)
    requires FirstMinimal([best] + rest, k, p, dist)
    ensures Reduce(best, rest, p, dist) == ([best] + rest)[k]
    decreases |rest|
  {
    var all := [best] + rest;
    if rest != [] {
      var x := rest[0];
      var all' := [if DistanceTo(x, p, dist) < DistanceTo(best, p, dist) then x else best] + rest[1..];
      if DistanceTo(x, p, dist) < DistanceTo(best, p, dist) {
        assert k != 0 by {
          assert DistanceTo(all[k], p, dist) <= DistanceTo(all[1], p, dist);
        }
        assert all' == all[1..];
        ReduceFirstMinimal(x, rest[1..], k - 1, p, dist);
      } else if k == 0 {
        assert forall j :: 1 <= j < |all'| ==> all'[j] == all[j + 1];
        ReduceFirstMinimal(best, rest[1..], 0, p, dist);
      } else {
        assert k != 1 by {
          assert DistanceTo(all[0], p, dist) > DistanceTo(all[k], p, dist);
        }
        assert all'[0] == all[0] && all'[k - 1] == all[k];
        assert forall j :: 1 <= j < |all'| ==> all'[j] == all[j + 1];
        assert FirstMinimal(all', k - 1, p, dist) by {
          forall j | 0 <= j < k - 1
            ensures DistanceTo(all'[j], p, dist) > DistanceTo(all'[k - 1], p, dist)
          {
            if j > 0 {
              assert all'[j] == all[j + 1];
            }
          }
        }
        ReduceFirstMinimal(best, rest[1..], k - 1, p, dist);
      }
    }
  }

  /** A first zone of minimal distance always exists, at some index of a non-empty list. */
  lemma {:induction false} FirstMinimalExists(s: seq<Zone>, p: Coords, dist: Distance)
    requires |s| > 0
    ensures exists k :: FirstMinimal(s, k, p, dist)
  {
    if |s| > 1 {
      FirstMinimalExists(s[1..], p, dist);
      var k :| FirstMinimal(s[1..], k, p, dist);
      if DistanceTo(s[0], p, dist) <= DistanceTo(s[1..][k], p, dist) {
        assert forall j :: 1 <= j < |s| ==> s[j] == s[1..][j - 1];
        assert FirstMinimal(s, 0, p, dist);
      } else {
        assert forall j :: 1 <= j < |s| ==> s[j] == s[1..][j - 1];
        assert FirstMinimal(s, k + 1, p, dist);
      }
    } else {
      assert FirstMinimal(s, 0, p, dist);
    }
  }

  /** On a non-empty list, the nearest candidate is the first one of minimal distance. */
  lemma NearestFirstMinimal(cands: seq<Zone>, p: Coords, dist: Distance)
    requires |cands| > 0
    ensures exists k :: FirstMinimal(cands, k, p, dist) && Nearest(cands, p, dist) == cands[k]
  {
    FirstMinimalExists(cands, p, dist);
    var k :| FirstMinimal(cands, k, p, dist);
    assert [cands[0]] + cands[1..] == cands;
    ReduceFirstMinimal(cands[0], cands[1..], k, p, dist);
  }

  /** The zone resolution inside `fetchZones`, on the list `zones || []`. */
  function ResolveCurrentZone(list: seq<Zone>, p: Coords, dist: Distance): (r: Option<Zone>)
    ensures r.None? <==> list == []
    ensures r.Some? ==> r.value in list
    // Some zone contains the point: the result is a containing zone, nearest among them.
    ensures r.Some? && (exists z :: z in list && Contains(z, p, dist)) ==>
      && Contains(r.value, p, dist)
      && forall z :: z in list && Contains(z, p, dist) ==>
           DistanceTo(r.value, p, dist) <= DistanceTo(z, p, dist)
    // No zone contains the point: soft fallback to the nearest zone overall.
    ensures r.Some? && (forall z :: z in list ==> !Contains(z, p, dist)) ==>
      forall z :: z in list ==> DistanceTo(r.value, p, dist) <= DistanceTo(z, p, dist)
    // Ties go to the earliest listed: every candidate before the result is strictly farther.
    ensures r.Some? ==> exists k ::
      (0 <= k < |list| && r.value == list[k]
       && forall j :: 0 <= j < k && list[j] in Candidates(list, p, dist) ==>
            DistanceTo(list[j], p, dist) > DistanceTo(r.value, p, dist))
  {
    var cands := Candidates(list, p, dist);
    if |cands| > 0 then
      NearestEarliest(list, p, dist);
      Some(Nearest(cands, p, dist))
    else None
  }

  /** The index in `list` of the nearest candidate: every candidate listed before it is strictly farther. */
  lemma EarliestIndex(list: seq<Zone>, p: Coords, dist: Distance) returns (n: int)
    requires list != []
    ensures 0 <= n < |list| && list[n] == Nearest(Candidates(list, p, dist), p, dist)
    ensures forall j :: 0 <= j < n && list[j] in Candidates(list, p, dist) ==>
      DistanceTo(list[j], p, dist) > DistanceTo(list[n], p, dist)
  {
    var cands := Candidates(list, p, dist);
    var inside := Inside(list, p, dist);
    NearestFirstMinimal(cands, p, dist);
    var m :| FirstMinimal(cands, m, p, dist) && Nearest(cands, p, dist) == cands[m];
    if |inside| > 0 {
      assert cands == inside;
      n := InsideOrder(list, m, p, dist);
      forall j | 0 <= j < n && list[j] in cands
        ensures DistanceTo(list[j], p, dist) > DistanceTo(list[n], p, dist)
      {
        assert list[j] in inside[..m];
        var i :| 0 <= i < m && inside[..m][i] == list[j];
        assert inside[i] == list[j];
      }
    } else {
      assert cands == list;
      n := m;
    }
  }

  /**
   * The existential form of `EarliestIndex`, which `ResolveCurrentZone`
   * needs inside its function body, where a lemma's out-parameter cannot
   * be bound.
   */
  lemma NearestEarliest(list: seq<Zone>, p: Coords, dist: Distance)
    requires list != []
    ensures var cands := Candidates(list, p, dist);
      exists k ::
        (0 <= k < |list| && Nearest(cands, p, dist) == list[k]
         && forall j :: 0 <= j < k && list[j] in cands ==>
              DistanceTo(list[j], p, dist) > DistanceTo(Nearest(cands, p, dist), p, dist))
  {
    var n := EarliestIndex(list, p, dist);
  }

  /**
   * A containing zone wins over a closer zone that does not contain the
   * point: the point at the centre of a 1000 m zone resolves to it even
   * when another, non-containing zone is listed first and is never farther.
   */
  lemma ContainingZoneBeatsCloserOutsider(outside: Zone, home: Zone, p: Coords, dist: Distance)
    requires p == home.center && home.radius == 1000.0 && dist(p, p) == 0.0
    requires !Contains(outside, p, dist) && outside != home
    ensures ResolveCurrentZone([outside, home], p, dist) == Some(home)
  {
    assert home in [outside, home];
    var r := ResolveCurrentZone([outside, home], p, dist);
    assert r.value in [outside, home];
  }

  /** Of two equally near zones that both contain the point, the first listed wins. */
  lemma TieGoesToFirst(a: Zone, b: Zone, p: Coords, dist: Distance)
    requires Contains(a, p, dist) && Contains(b, p, dist)
    requires DistanceTo(a, p, dist) == DistanceTo(b, p, dist)
    ensures ResolveCurrentZone([a, b], p, dist) == Some(a)
  {
    assert Inside([a, b], p, dist) == [a, b] by {
      assert [a, b][1..] == [b];
      assert Inside([b], p, dist) == [b];
    }
    NearestFirstMinimal([a, b], p, dist);
  }

  /** The hook's state: the fetched zone list and the resolved current zone. */
  class ZoneTracker {
    const dist: Distance
    var currentZone: Option<Zone>
    var nearbyZones: seq<Zone>
    var loading: bool

    constructor (dist: Distance)
      ensures this.dist == dist
      ensures currentZone == None && nearbyZones == [] && !loading
    {
      this.dist := dist;
      currentZone := None;
      nearbyZones := [];
      loading := false;
    }

    /**
     * `fetchZones`: with no location nothing happens; otherwise `fetched`
     * is what the zone directory returned (None for null).
     */
    method FetchZones(location: Option<Coords>, fetched: Option<seq<Zone>>)
      modifies this
      ensures location.None? ==>
        currentZone == old(currentZone) && nearbyZones == old(nearbyZones) && loading == old(loading)
      ensures location.Some? ==>
        && nearbyZones == fetched.GetOr([])
        && currentZone == ResolveCurrentZone(nearbyZones, location.value, dist)
        && !loading
      ensures location.Some? && (fetched.None? || fetched.value == []) ==>
        nearbyZones == [] && currentZone == None
    {
      if location.None? {
        return;
      }
      loading := true;
      var list := fetched.GetOr([]);
      nearbyZones := list;
      currentZone := ResolveCurrentZone(list, location.value, dist);
      loading := false;
    }
  }
}
