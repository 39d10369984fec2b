/** The generator's inspector: the spacing read-outs, the disabled-type
    zeroing under the two foldouts, and the zone-size report `CalculateZones`. */
module ZoneEditor {
  import opened Wrappers
  import opened Boxes
  import opened Settings
  import opened ZoneMap
  import opened Generator

  /** Number of enabled types among the first `n` flags. */
  function EnabledIn(flags: seq<bool>, n: nat): nat
    requires n <= |flags|
  {
    if n == 0 then 0 else EnabledIn(flags, n - 1) + (if flags[n - 1] then 1 else 0)
  }

  /** Summed zone sizes of the enabled types among the first `n`; the zone
      of type `i` is `sizes[i + 1]`. */
  function EnabledSizesIn(flags: seq<bool>, sizes: seq<int>, n: nat): int
    requires n <= |flags| && |sizes| == |flags| + 1
  {
    if n == 0 then 0
    else EnabledSizesIn(flags, sizes, n - 1) + (if flags[n - 1] then sizes[n] else 0)
  }

  /** The number of enabled box types. */
  function EnabledCount(c: Config): nat
    requires WellFormed(c)
  {
    EnabledIn(c.boxTypes, TypeCount)
  }

  /** The mixed zone plus the zones of the enabled types. */
  function ZoneSum(c: Config): int
    requires WellFormed(c)
  {
    c.zoneSizes[0] + EnabledSizesIn(c.boxTypes, c.zoneSizes, TypeCount)
  }

  /** The tally loop of `CalculateZones`: one pass over the type flags,
      skipping disabled types. */
  method TallyZones(c: Config) returns (zoneCount: nat, zoneSum: int)
    requires WellFormed(c)
    ensures zoneCount == EnabledCount(c)
    ensures zoneSum == ZoneSum(c)
  {
    zoneCount := 0;
    zoneSum := c.zoneSizes[0];
    var i := 0;
    while i < TypeCount
      invariant 0 <= i <= TypeCount
      invariant zoneCount == EnabledIn(c.boxTypes, i)
      invariant zoneSum == c.zoneSizes[0] + EnabledSizesIn(c.boxTypes, c.zoneSizes, i)
    {
      if c.boxTypes[i] {
        zoneCount := zoneCount + 1;
        zoneSum := zoneSum + c.zoneSizes[i + 1];
      }
      i := i + 1;
    }
  }

  /** The lines of the report, in the order the report lists them. */
  datatype Diagnostic =
    | NoZones            // ERROR: no zones specified
    | MoreZonesThanRows  // ERROR: more zones than rows
    | UnusedRows         // WARNING: not all rows used
    | MixedZoneTooSmall  // WARNING (fetch): more boxes to search than fit in the mixed zone
    | SortZonesTooSmall  // WARNING (sort): more boxes to sort than fit in the zones
    | AllFine            // INFO: all looks fine

  function Rank(d: Diagnostic): nat {
    match d
    case NoZones => 0
    case MoreZonesThanRows => 1
    case UnusedRows => 2
    case MixedZoneTooSmall => 3
    case SortZonesTooSmall => 4
    case AllFine => 5
  }

  /** Each line at most once, in report order. */
  predicate InReportOrder(report: seq<Diagnostic>) {
    forall i, j :: 0 <= i < j < |report| ==> Rank(report[i]) < Rank(report[j])
  }

  /** The report for `count` enabled types whose zones and the mixed zone
      add up to `sum`, over `rows` rows. */
  function Report(count: nat, sum: int, mixed: int, rows: int, mode: JobType): (report: seq<Diagnostic>)
    ensures NoZones in report <==> count == 0
    ensures MoreZonesThanRows in report <==> sum > rows
    ensures UnusedRows in report <==> sum < rows
    ensures MixedZoneTooSmall in report <==> mode == Fetching && mixed < count
    ensures SortZonesTooSmall in report <==> mode == Sorting && mixed > sum - mixed
    ensures AllFine in report <==> report == [AllFine]
    ensures report != []
    ensures InReportOrder(report)
  {
    var found :=
      Flag(count == 0, NoZones,
      Flag(sum > rows, MoreZonesThanRows,
      Flag(sum < rows, UnusedRows,
      Flag(mode == Fetching && mixed < count, MixedZoneTooSmall,
      Flag(mode == Sorting && mixed > sum - mixed, SortZonesTooSmall, [])))));
    if found == [] then [AllFine] else found
  }

  /** `d` ahead of the later diagnostics `rest` when its condition `on` holds. */
  function Flag(on: bool, d: Diagnostic, rest: seq<Diagnostic>): (r: seq<Diagnostic>)
    requires InReportOrder(rest) && forall e :: e in rest ==> Rank(d) < Rank(e)
    ensures forall e :: e in r <==> (on && e == d) || e in rest
    ensures InReportOrder(r)
  {
    if on then
      assert forall j :: 1 <= j < |[d] + rest| ==> ([d] + rest)[j] == rest[j - 1];
      [d] + rest
    else rest
  }

  /** `CalculateZones`: every check appends its line when its condition
      holds; "all looks fine" appears exactly when no other line did. */
  function CalculateZones(c: Config): (report: seq<Diagnostic>)
    requires WellFormed(c)
    ensures NoZones in report <==> EnabledCount(c) == 0
    ensures MoreZonesThanRows in report <==> ZoneSum(c) > c.shelfRows
    ensures UnusedRows in report <==> ZoneSum(c) < c.shelfRows
    ensures MixedZoneTooSmall in report <==> c.jobType == Fetching && c.zoneSizes[0] < EnabledCount(c)
    ensures SortZonesTooSmall in report <==> c.jobType == Sorting && c.zoneSizes[0] > ZoneSum(c) - c.zoneSizes[0]
    ensures AllFine in report <==> report == [AllFine]
    ensures report != []
    ensures InReportOrder(report)
  {
    Report(EnabledCount(c), ZoneSum(c), c.zoneSizes[0], c.shelfRows, c.jobType)
  }

  /** The row-count lines: over-allocation and unused rows never appear
      together, and neither appears exactly when the zones add up to the
      row count. */
  lemma RowLinesExclusive(c: Config)
    requires WellFormed(c)
    ensures !(MoreZonesThanRows in CalculateZones(c) && UnusedRows in CalculateZones(c))
    ensures (MoreZonesThanRows !in CalculateZones(c) && UnusedRows !in CalculateZones(c)) <==> ZoneSum(c) == c.shelfRows
  {
  }

  /** One inspector pass with the box-type foldout open (`typesOpen`) and/or
      the zone foldout open (`zonesOpen`), without user input: the spacings
      are refreshed, a disabled type's weight slider shows and stores 0, and
      a disabled type's zone size is forced to 0. Sliders of enabled types
      keep their values. */
  function InspectorPass(c: Config, typesOpen: bool, zonesOpen: bool): (r: Config)
    requires WellFormed(c) && c.shelfRows != -1
    ensures WellFormed(r) && SpacingCurrent(r)
    ensures forall t :: 0 <= t < TypeCount ==>
              r.boxWeights[t] == if typesOpen && !c.boxTypes[t] then 0.0 else c.boxWeights[t]
    ensures forall t :: 0 <= t < TypeCount ==>
              r.zoneSizes[t + 1] == if zonesOpen && !c.boxTypes[t] then 0 else c.zoneSizes[t + 1]
    ensures r.zoneSizes[0] == c.zoneSizes[0]
    ensures r == c.(boxWeights := r.boxWeights, zoneSizes := r.zoneSizes,
                    distanceBetweenShelves := r.distanceBetweenShelves, distanceToWall := r.distanceToWall)
  {
    var weights := if typesOpen then seq(TypeCount, t requires 0 <= t < TypeCount => if c.boxTypes[t] then c.boxWeights[t] else 0.0)
                   else c.boxWeights;
    var sizes := if zonesOpen then seq(TypeCount + 1, z requires 0 <= z <= TypeCount => if z > 0 && !c.boxTypes[z - 1] then 0 else c.zoneSizes[z])
                 else c.zoneSizes;
    c.(boxWeights := weights, zoneSizes := sizes,
       distanceBetweenShelves := ShelfSpacing(c.buildingY, c.shelfRows),
       distanceToWall := WallDistance(c.buildingX, c.shelfColumns))
  }

  /** Zone sizes as the inspector leaves them: none negative, disabled types' zones empty. */
  predicate ZonesTidy(c: Config)
    requires WellFormed(c)
  {
    && (forall z :: 0 <= z <= TypeCount ==> c.zoneSizes[z] >= 0)
    && (forall t :: 0 <= t < TypeCount && !c.boxTypes[t] ==> c.zoneSizes[t + 1] == 0)
  }

  lemma {:induction false} EnabledSizesAreBoundary(flags: seq<bool>, sizes: seq<int>, n: nat)
    requires n <= |flags| && |sizes| == |flags| + 1
    requires forall z :: 0 <= z < |sizes| ==> sizes[z] >= 0
    requires forall t :: 0 <= t < |flags| && !flags[t] ==> sizes[t + 1] == 0
    ensures sizes[0] + EnabledSizesIn(flags, sizes, n) == Boundary(sizes, n + 1)
  {
    if n > 0 {
      EnabledSizesAreBoundary(flags, sizes, n - 1);
    }
  }

  /** With tidy zones, the report's sum is the generator's zone boundary, so
      a report of "all looks fine" means the zone map covers every row
      exactly: the generator logs no over-allocation and no row falls back
      to the mixed zone for lack of a zone. */
  lemma FineReportCoversRows(c: Config, draws: Stream)
    requires WellFormed(c) && c.shelfRows >= 0 && ZonesTidy(c)
    requires CalculateZones(c) == [AllFine]
    ensures Boundary(c.zoneSizes, |c.zoneSizes|) == c.shelfRows
    ensures !GenerateRoom(c, draws).value.zoneWarning
  {
    EnabledSizesAreBoundary(c.boxTypes, c.zoneSizes, TypeCount);
  }

  /** The zone pass tidies the zones of disabled types. */
  lemma ZonePassTidies(c: Config, typesOpen: bool)
    requires WellFormed(c) && c.shelfRows != -1
    requires forall z :: 0 <= z <= TypeCount ==> c.zoneSizes[z] >= 0
    ensures ZonesTidy(InspectorPass(c, typesOpen, true))
  {
  }
}
