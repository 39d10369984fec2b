/** The zone map: `GenerateRoom` walks the per-zone row counts in order
    (mixed, blue, green, yellow, red) and gives each zone the next run of
    consecutive row indices. A write at index `shelfRows` throws
    `IndexOutOfRangeException`; the catch logs a warning and keeps every
    row written so far. */
module ZoneMap {

  /** Rows a zone of configured size `size` receives: the inner loop runs
      no iterations for a negative size. */
  function Width(size: int): nat {
    if size < 0 then 0 else size
  }

  /** The first row after zones `0..k-1`: the running `index` once `k` zones
      have been written. */
  function Boundary(sizes: seq<int>, k: nat): nat
    requires k <= |sizes|
  {
    if k == 0 then 0 else Boundary(sizes, k - 1) + Width(sizes[k - 1])
  }

  /** Reference colour of row `r`: the least zone `c` with
      `r < Boundary(sizes, c + 1)`, or 0 (mixed) when `r` lies past every zone. */
  function ZoneOfRow(sizes: seq<int>, r: nat): nat {
    FirstZoneFrom(sizes, r, 0)
  }

  /** The least zone from `c` on whose run ends after `r`. */
  function FirstZoneFrom(sizes: seq<int>, r: nat, c: nat): (z: nat)
    ensures z == 0 || c <= z < |sizes|
    decreases |sizes| - c
  {
    if c >= |sizes| then 0
    else if r < Boundary(sizes, c + 1) then c
    else FirstZoneFrom(sizes, r, c + 1)
  }

  /** State after the inner loop of one zone. */
  datatype Fill = Fill(colors: seq<int>, index: nat, overflow: bool)

  /** The inner loop: writes `color` at `index`, `index + 1`, ... for `count`
      rows. Reaching index `|colors|` with rows still to write is the
      exception; `overflow` records it and the rows before it stay written. */
  function FillZone(colors: seq<int>, index: nat, count: nat, color: int): (f: Fill)
    requires index <= |colors|
    ensures |f.colors| == |colors|
    ensures f.overflow <==> index + count > |colors|
    ensures !f.overflow ==> f.index == index + count
    ensures forall i :: 0 <= i < |colors| ==>
              f.colors[i] == if index <= i < index + count then color else colors[i]
    decreases count
  {
    if count == 0 then Fill(colors, index, false)
    else if index == |colors| then Fill(colors, index, true)
    else FillZone(colors[index := color], index + 1, count - 1, color)
  }

  /** The finished zone map and whether the walk was cut short. */
  datatype Assignment = Assignment(colors: seq<int>, overflow: bool)

  /** The outer loop from zone `k` on, with `index` the running row index. */
  function AssignFrom(colors: seq<int>, sizes: seq<int>, k: nat, index: nat): Assignment
    requires k <= |sizes|
    requires index == Boundary(sizes, k) <= |colors|
    decreases |sizes| - k
  {
    if k == |sizes| then Assignment(colors, false)
    else
      var f := FillZone(colors, index, Width(sizes[k]), k);
      if f.overflow then Assignment(f.colors, true)
      else AssignFrom(f.colors, sizes, k + 1, f.index)
  }

  /** `colors = new int[rows]` followed by the zone walk. Every row gets the
      reference colour, whether or not the walk overflowed, and the overflow
      warning is raised exactly when the zones ask for more rows than exist. */
  function AssignZones(rows: nat, sizes: seq<int>): (a: Assignment)
    ensures |a.colors| == rows
    ensures a.overflow <==> Boundary(sizes, |sizes|) > rows
    ensures forall r :: 0 <= r < rows ==> a.colors[r] == ZoneOfRow(sizes, r)
  {
    AssignFromMatchesZoneOfRow(seq(rows, _ => 0), sizes, 0, 0);
    AssignFrom(seq(rows, _ => 0), sizes, 0, 0)
  }

  lemma {:induction false} BoundaryMonotone(sizes: seq<int>, j: nat, k: nat)
    requires j <= k <= |sizes|
    ensures Boundary(sizes, j) <= Boundary(sizes, k)
    decreases k
  {
    if j < k {
      BoundaryMonotone(sizes, j, k - 1);
    }
  }

  lemma {:induction false} FirstZoneWithin(sizes: seq<int>, r: nat, c: nat, k: nat)
    requires c <= k < |sizes|
    requires Boundary(sizes, k) <= r < Boundary(sizes, k + 1)
    ensures FirstZoneFrom(sizes, r, c) == k
    decreases k - c
  {
    if c < k {
      BoundaryMonotone(sizes, c + 1, k);
      FirstZoneWithin(sizes, r, c + 1, k);
    }
  }

  lemma {:induction false} FirstZonePast(sizes: seq<int>, r: nat, c: nat)
    requires c <= |sizes|
    requires Boundary(sizes, |sizes|) <= r
    ensures FirstZoneFrom(sizes, r, c) == 0
    decreases |sizes| - c
  {
    if c < |sizes| {
      BoundaryMonotone(sizes, c + 1, |sizes|);
      FirstZonePast(sizes, r, c + 1);
    }
  }

  lemma {:induction false} FindZone(sizes: seq<int>, r: nat, n: nat) returns (k: nat)
    requires n <= |sizes| && r < Boundary(sizes, n)
    ensures k < n && Boundary(sizes, k) <= r < Boundary(sizes, k + 1)
    decreases n
  {
    if r >= Boundary(sizes, n - 1) {
      k := n - 1;
    } else {
      k := FindZone(sizes, r, n - 1);
    }
  }

  /** `ZoneOfRow` is the zone whose run of rows contains `r`, and 0 for a row
      past every zone; a row gets a coloured zone only if that zone has rows. */
  lemma ZoneOfRowCharacterized(sizes: seq<int>, r: nat)
    ensures r < Boundary(sizes, |sizes|) ==>
              ZoneOfRow(sizes, r) < |sizes|
              && Boundary(sizes, ZoneOfRow(sizes, r)) <= r < Boundary(sizes, ZoneOfRow(sizes, r) + 1)
    ensures Boundary(sizes, |sizes|) <= r ==> ZoneOfRow(sizes, r) == 0
    ensures 0 < ZoneOfRow(sizes, r) ==> Width(sizes[ZoneOfRow(sizes, r)]) > 0
  {
    if r < Boundary(sizes, |sizes|) {
      var k := FindZone(sizes, r, |sizes|);
      FirstZoneWithin(sizes, r, 0, k);
    } else {
      FirstZonePast(sizes, r, 0);
    }
  }

  /** Every zone of a well-ordered walk is the least one containing the row:
      no earlier zone's run reaches `r`. */
  lemma ZoneOfRowIsLeast(sizes: seq<int>, r: nat, c: nat)
    requires c < ZoneOfRow(sizes, r)
    ensures Boundary(sizes, c + 1) <= r
  {
    ZoneOfRowCharacterized(sizes, r);
    BoundaryMonotone(sizes, c + 1, ZoneOfRow(sizes, r));
  }

  lemma {:induction false} AssignFromMatchesZoneOfRow(colors: seq<int>, sizes: seq<int>, k: nat, index: nat)
    requires k <= |sizes|
    requires index == Boundary(sizes, k) <= |colors|
    requires forall r :: 0 <= r < index ==> colors[r] == ZoneOfRow(sizes, r)
    requires forall r :: index <= r < |colors| ==> colors[r] == 0
    ensures |AssignFrom(colors, sizes, k, index).colors| == |colors|
    ensures AssignFrom(colors, sizes, k, index).overflow <==> Boundary(sizes, |sizes|) > |colors|
    ensures forall r :: 0 <= r < |colors| ==> AssignFrom(colors, sizes, k, index).colors[r] == ZoneOfRow(sizes, r)
    decreases |sizes| - k
  {
    if k == |sizes| {
      forall r | index <= r < |colors|
        ensures colors[r] == ZoneOfRow(sizes, r)
      {
        FirstZonePast(sizes, r, 0);
      }
    } else {
      var w := Width(sizes[k]);
      var f := FillZone(colors, index, w, k);
      forall r | index <= r < |colors| && r < index + w
        ensures f.colors[r] == ZoneOfRow(sizes, r)
      {
        FirstZoneWithin(sizes, r, 0, k);
      }
      if f.overflow {
        BoundaryMonotone(sizes, k + 1, |sizes|);
      } else {
        AssignFromMatchesZoneOfRow(f.colors, sizes, k + 1, f.index);
      }
    }
  }
}
