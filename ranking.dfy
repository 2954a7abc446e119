/**
 * `sortLocations`: the entries of a location table ordered so that locations with a
 * reserved hostnode come first and, within each group, cheaper locations come first.
 * `Array.prototype.sort` is stable, so locations that tie on both keep the order in
 * which they were aggregated. The sort is modelled as a stable insertion sort and
 * characterised by three lemmas: the result is ordered, is a permutation of the
 * input, and keeps the input order of every group of ties.
 */
module Ranking {
  import opened Locations

  /** `hostnodes.find((node) => node.reserved)` finds something. */
  predicate HasReservedHost(hs: seq<HostRef>)
  {
    exists k :: 0 <= k < |hs| && hs[k].reserved
  }

  /** The first sort key: 0 for a location with a reserved hostnode, 1 otherwise. */
  function Rank(e: LocationEntry): int
  {
    if HasReservedHost(e.info.hostnodes) then 0 else 1
  }

  /** The comparator returns a value <= 0: `a` may stay ahead of `b`. */
  predicate Precedes(a: LocationEntry, b: LocationEntry)
  {
    Rank(a) < Rank(b) || (Rank(a) == Rank(b) && a.info.price <= b.info.price)
  }

  predicate Sorted(s: LocationTable)
  {
    forall i, j :: 0 <= i < j < |s| ==> Precedes(s[i], s[j])
  }

  /** Place `x` ahead of the first entry it may precede. */
  function Insert(x: LocationEntry, s: LocationTable): (r: LocationTable)
    ensures multiset(r) == multiset(s) + multiset{x}
  {
    if |s| == 0 || Precedes(x, s[0]) then [x] + s
    else
      assert s == [s[0]] + s[1..];
      [s[0]] + Insert(x, s[1..])
  }

  function SortLocations(t: LocationTable): (r: LocationTable)
    ensures multiset(r) == multiset(t)
  {
    if |t| == 0 then []
    else
      assert t == [t[0]] + t[1..];
      Insert(t[0], SortLocations(t[1..]))
  }

  lemma {:induction false} InsertSorted(x: LocationEntry, s: LocationTable)
    requires Sorted(s)
    ensures Sorted(Insert(x, s))
  {
    if |s| > 0 && !Precedes(x, s[0]) {
      InsertSorted(x, s[1..]);
      var r := Insert(x, s[1..]);
      forall j | 0 <= j < |r| ensures Precedes(s[0], r[j]) {
        assert r[j] in multiset(r);
        if r[j] != x {
          assert r[j] in multiset(s[1..]);
          var k :| 0 <= k < |s[1..]| && s[1..][k] == r[j];
          assert s[k + 1] == r[j];
        }
      }
    }
  }

  /** The result is ordered: reserved locations first, then by price. */
  lemma {:induction false} SortLocationsSorted(t: LocationTable)
    ensures Sorted(SortLocations(t))
    ensures forall i, j :: 0 <= i < j < |SortLocations(t)| && HasReservedHost(SortLocations(t)[j].info.hostnodes) ==>
              HasReservedHost(SortLocations(t)[i].info.hostnodes)
  {
    if |t| > 0 {
      SortLocationsSorted(t[1..]);
      InsertSorted(t[0], SortLocations(t[1..]));
    }
  }

  /** The entries of `s` whose sort keys are exactly (rank, price), in order. */
  function Ties(s: LocationTable, rank: int, price: real): LocationTable
  {
    if |s| == 0 then []
    else (if Rank(s[0]) == rank && s[0].info.price == price then [s[0]] else []) + Ties(s[1..], rank, price)
  }

  lemma {:induction false} TiesAppend(a: LocationTable, b: LocationTable, rank: int, price: real)
    ensures Ties(a + b, rank, price) == Ties(a, rank, price) + Ties(b, rank, price)
  {
    if |a| == 0 {
      assert a + b == b;
    } else {
      assert (a + b)[0] == a[0];
      assert (a + b)[1..] == a[1..] + b;
      TiesAppend(a[1..], b, rank, price);
    }
  }

  lemma {:induction false} InsertStable(x: LocationEntry, s: LocationTable, rank: int, price: real)
    ensures Ties(Insert(x, s), rank, price) == Ties([x] + s, rank, price)
  {
    if |s| > 0 && !Precedes(x, s[0]) {
      var y, rest := s[0], s[1..];
      assert s == [y] + rest;
      InsertStable(x, rest, rank, price);
      TiesAppend([y], Insert(x, rest), rank, price);
      TiesAppend([x], rest, rank, price);
      TiesAppend([x], s, rank, price);
      TiesAppend([y], rest, rank, price);
      // x and y have different keys, so at most one of them is a tie of (rank, price)
      assert Ties([y], rank, price) == [] || Ties([x], rank, price) == [];
    }
  }

  /** The sort is stable: every group of ties keeps its input order. */
  lemma {:induction false} SortLocationsStable(t: LocationTable, rank: int, price: real)
    ensures Ties(SortLocations(t), rank, price) == Ties(t, rank, price)
  {
    if |t| > 0 {
      SortLocationsStable(t[1..], rank, price);
      InsertStable(t[0], SortLocations(t[1..]), rank, price);
      TiesAppend([t[0]], SortLocations(t[1..]), rank, price);
      TiesAppend([t[0]], t[1..], rank, price);
      assert t == [t[0]] + t[1..];
    }
  }
}
