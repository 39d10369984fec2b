/** The main menu's settings screen. Every handler parses its text field
    (the parse result is the `Option` input: `None` when the text does not
    parse), falls back to a default, clamps, and writes one field of the
    configuration; the size and count handlers then recompute the spacings. */
module MainMenu {
  import opened Wrappers
  import opened Numeric
  import opened Boxes
  import opened Settings

  /** Parse-or-default, then clamp, for whole numbers. */
  function IntInput(parsed: Option<int>, default: int, lo: int, hi: int): (v: int)
    requires lo <= default <= hi
    ensures lo <= v <= hi
    ensures parsed.None? ==> v == default
    ensures parsed.Some? && lo <= parsed.value <= hi ==> v == parsed.value
    ensures parsed.Some? && parsed.value < lo ==> v == lo
    ensures parsed.Some? && parsed.value > hi ==> v == hi
  {
    ClampInt(parsed.GetOr(default), lo, hi)
  }

  /** Parse-or-default, then clamp, for floats. */
  function RealInput(parsed: Option<real>, default: real, lo: real, hi: real): (v: real)
    requires lo <= default <= hi
    ensures lo <= v <= hi
    ensures parsed.None? ==> v == default
    ensures parsed.Some? && lo <= parsed.value <= hi ==> v == parsed.value
    ensures parsed.Some? && parsed.value < lo ==> v == lo
    ensures parsed.Some? && parsed.value > hi ==> v == hi
  {
    ClampReal(parsed.GetOr(default), lo, hi)
  }

  /** Typing back the value a field settled on changes nothing. */
  lemma InputsSettle(p: Option<int>, q: Option<real>, di: int, li: int, hi: int, dr: real, lr: real, hr: real)
    requires li <= di <= hi && lr <= dr <= hr
    ensures IntInput(Some(IntInput(p, di, li, hi)), di, li, hi) == IntInput(p, di, li, hi)
    ensures RealInput(Some(RealInput(q, dr, lr, hr)), dr, lr, hr) == RealInput(q, dr, lr, hr)
  {
  }

  /** `SeedSet`: the parsed seed, or -1 (a fresh random seed) when the text
      does not parse. Nothing else changes. */
  function SeedSet(c: Config, parsed: Option<int>): (r: Config)
    ensures parsed.Some? ==> r.seed == parsed.value
    ensures parsed.None? ==> r.seed == -1
    ensures r == c.(seed := r.seed)
  {
    c.(seed := parsed.GetOr(-1))
  }

  /** `JobTypeSet`: the dropdown index cast to the job enum. Only index 1
      means fetching; every reader of the job type tests for fetching. */
  function JobTypeSet(c: Config, index: int): (r: Config)
    ensures r.jobType == Fetching <==> index == 1
    ensures r == c.(jobType := r.jobType)
  {
    c.(jobType := if index == 1 then Fetching else Sorting)
  }

  /** `RequirementSet`: the share of job boxes, clamped to 20..100; 50 when
      the text does not parse. */
  function RequirementSet(c: Config, parsed: Option<int>): (r: Config)
    ensures 20 <= r.searchPercent <= 100
    ensures parsed.None? ==> r.searchPercent == 50
    ensures parsed.Some? && 20 <= parsed.value <= 100 ==> r.searchPercent == parsed.value
    ensures parsed.Some? ==> r.searchPercent == ClampInt(parsed.value, 20, 100)
    ensures r == c.(searchPercent := r.searchPercent)
  {
    c.(searchPercent := IntInput(parsed, 50, 20, 100))
  }

  /** `TimeLimitSet`: component `pos` of the limit (hours, minutes, seconds),
      clamped to 0..60, with `default` when the text does not parse; the
      other two components keep their values. */
  function TimeLimitSet(c: Config, pos: nat, default: real, parsed: Option<real>): (r: Config)
    requires WellFormed(c) && pos < 3 && 0.0 <= default <= 60.0
    ensures WellFormed(r)
    ensures 0.0 <= r.timeLimit[pos] <= 60.0
    ensures parsed.None? ==> r.timeLimit[pos] == default
    ensures parsed.Some? && 0.0 <= parsed.value <= 60.0 ==> r.timeLimit[pos] == parsed.value
    ensures parsed.Some? ==> r.timeLimit[pos] == ClampReal(parsed.value, 0.0, 60.0)
    ensures forall k :: 0 <= k < 3 && k != pos ==> r.timeLimit[k] == c.timeLimit[k]
    ensures r == c.(timeLimit := r.timeLimit)
  {
    c.(timeLimit := c.timeLimit[pos := RealInput(parsed, default, 0.0, 60.0)])
  }

  function HoursSet(c: Config, parsed: Option<real>): (r: Config)
    requires WellFormed(c)
    ensures WellFormed(r)
    ensures parsed.None? ==> r.timeLimit[0] == 0.0
    ensures parsed.Some? && 0.0 <= parsed.value <= 60.0 ==> r.timeLimit[0] == parsed.value
    ensures parsed.Some? ==> r.timeLimit[0] == ClampReal(parsed.value, 0.0, 60.0)
    ensures 0.0 <= r.timeLimit[0] <= 60.0
    ensures r.timeLimit[1] == c.timeLimit[1] && r.timeLimit[2] == c.timeLimit[2]
    ensures r == c.(timeLimit := r.timeLimit)
  {
    TimeLimitSet(c, 0, 0.0, parsed)
  }

  function MinuteSet(c: Config, parsed: Option<real>): (r: Config)
    requires WellFormed(c)
    ensures WellFormed(r)
    ensures parsed.None? ==> r.timeLimit[1] == 15.0
    ensures parsed.Some? && 0.0 <= parsed.value <= 60.0 ==> r.timeLimit[1] == parsed.value
    ensures parsed.Some? ==> r.timeLimit[1] == ClampReal(parsed.value, 0.0, 60.0)
    ensures 0.0 <= r.timeLimit[1] <= 60.0
    ensures r.timeLimit[0] == c.timeLimit[0] && r.timeLimit[2] == c.timeLimit[2]
    ensures r == c.(timeLimit := r.timeLimit)
  {
    TimeLimitSet(c, 1, 15.0, parsed)
  }

  function SecondSet(c: Config, parsed: Option<real>): (r: Config)
    requires WellFormed(c)
    ensures WellFormed(r)
    ensures parsed.None? ==> r.timeLimit[2] == 0.0
    ensures parsed.Some? && 0.0 <= parsed.value <= 60.0 ==> r.timeLimit[2] == parsed.value
    ensures parsed.Some? ==> r.timeLimit[2] == ClampReal(parsed.value, 0.0, 60.0)
    ensures 0.0 <= r.timeLimit[2] <= 60.0
    ensures r.timeLimit[0] == c.timeLimit[0] && r.timeLimit[1] == c.timeLimit[1]
    ensures r == c.(timeLimit := r.timeLimit)
  {
    TimeLimitSet(c, 2, 0.0, parsed)
  }

  /** `CalculateDistance`: brings the two derived spacings up to date with
      the building size and the shelf counts, touching nothing else. A row
      count of -1 would divide by zero and is excluded. */
  function CalculateDistance(c: Config): (r: Config)
    requires c.shelfRows != -1
    ensures SpacingCurrent(r)
    ensures r == c.(distanceBetweenShelves := r.distanceBetweenShelves, distanceToWall := r.distanceToWall)
  {
    c.(distanceBetweenShelves := ShelfSpacing(c.buildingY, c.shelfRows),
       distanceToWall := WallDistance(c.buildingX, c.shelfColumns))
  }

  /** `SetWarehouseX`: building width clamped to 8..100 (24 when the text
      does not parse), then the spacings. */
  function SetWarehouseX(c: Config, parsed: Option<real>): (r: Config)
    requires c.shelfRows != -1
    ensures 8.0 <= r.buildingX <= 100.0
    ensures parsed.None? ==> r.buildingX == 24.0
    ensures parsed.Some? && 8.0 <= parsed.value <= 100.0 ==> r.buildingX == parsed.value
    ensures parsed.Some? ==> r.buildingX == ClampReal(parsed.value, 8.0, 100.0)
    ensures SpacingCurrent(r)
    ensures r == c.(buildingX := r.buildingX, distanceBetweenShelves := r.distanceBetweenShelves, distanceToWall := r.distanceToWall)
  {
    CalculateDistance(c.(buildingX := RealInput(parsed, 24.0, 8.0, 100.0)))
  }

  /** `SetWarehouseY`: building depth clamped to 8..100 (44 when the text
      does not parse), then the spacings. */
  function SetWarehouseY(c: Config, parsed: Option<real>): (r: Config)
    requires c.shelfRows != -1
    ensures 8.0 <= r.buildingY <= 100.0
    ensures parsed.None? ==> r.buildingY == 44.0
    ensures parsed.Some? && 8.0 <= parsed.value <= 100.0 ==> r.buildingY == parsed.value
    ensures parsed.Some? ==> r.buildingY == ClampReal(parsed.value, 8.0, 100.0)
    ensures SpacingCurrent(r)
    ensures r == c.(buildingY := r.buildingY, distanceBetweenShelves := r.distanceBetweenShelves, distanceToWall := r.distanceToWall)
  {
    CalculateDistance(c.(buildingY := RealInput(parsed, 44.0, 8.0, 100.0)))
  }

  /** `SetShelfX`: shelf columns clamped to 1..100 (2 when the text does not
      parse), then the spacings. */
  function SetShelfX(c: Config, parsed: Option<int>): (r: Config)
    requires c.shelfRows != -1
    ensures 1 <= r.shelfColumns <= 100
    ensures parsed.None? ==> r.shelfColumns == 2
    ensures parsed.Some? && 1 <= parsed.value <= 100 ==> r.shelfColumns == parsed.value
    ensures parsed.Some? ==> r.shelfColumns == ClampInt(parsed.value, 1, 100)
    ensures SpacingCurrent(r)
    ensures r == c.(shelfColumns := r.shelfColumns, distanceBetweenShelves := r.distanceBetweenShelves, distanceToWall := r.distanceToWall)
  {
    CalculateDistance(c.(shelfColumns := IntInput(parsed, 2, 1, 100)))
  }

  /** `SetShelfY`: shelf rows clamped to 1..100 (4 when the text does not
      parse), then the spacings; any earlier row count is fine here. */
  function SetShelfY(c: Config, parsed: Option<int>): (r: Config)
    ensures 1 <= r.shelfRows <= 100
    ensures parsed.None? ==> r.shelfRows == 4
    ensures parsed.Some? && 1 <= parsed.value <= 100 ==> r.shelfRows == parsed.value
    ensures parsed.Some? ==> r.shelfRows == ClampInt(parsed.value, 1, 100)
    ensures SpacingCurrent(r)
    ensures r == c.(shelfRows := r.shelfRows, distanceBetweenShelves := r.distanceBetweenShelves, distanceToWall := r.distanceToWall)
  {
    CalculateDistance(c.(shelfRows := IntInput(parsed, 4, 1, 100)))
  }

  /** `SetToggleBlue` .. `SetToggleRed`: the enable flag of type `t`. */
  function SetToggle(c: Config, t: nat, on: bool): (r: Config)
    requires WellFormed(c) && t < TypeCount
    ensures WellFormed(r)
    ensures r.boxTypes[t] == on
    ensures forall k :: 0 <= k < TypeCount && k != t ==> r.boxTypes[k] == c.boxTypes[k]
    ensures r == c.(boxTypes := r.boxTypes)
  {
    c.(boxTypes := c.boxTypes[t := on])
  }

  /** `SetWeightBlue` .. `SetWeightRed`: the weight of type `t`, clamped to
      0..1 (0.5 when the text does not parse). */
  function SetWeight(c: Config, t: nat, parsed: Option<real>): (r: Config)
    requires WellFormed(c) && t < TypeCount
    ensures WellFormed(r)
    ensures 0.0 <= r.boxWeights[t] <= 1.0
    ensures parsed.None? ==> r.boxWeights[t] == 0.5
    ensures parsed.Some? && 0.0 <= parsed.value <= 1.0 ==> r.boxWeights[t] == parsed.value
    ensures parsed.Some? ==> r.boxWeights[t] == ClampReal(parsed.value, 0.0, 1.0)
    ensures forall k :: 0 <= k < TypeCount && k != t ==> r.boxWeights[k] == c.boxWeights[k]
    ensures r == c.(boxWeights := r.boxWeights)
  {
    c.(boxWeights := c.boxWeights[t := RealInput(parsed, 0.5, 0.0, 1.0)])
  }

  /** `SetZoneMixed` .. `SetZoneRed`: the row count of zone `z` (0 is the
      mixed zone), clamped to 0..999 (1 when the text does not parse). */
  function SetZone(c: Config, z: nat, parsed: Option<int>): (r: Config)
    requires WellFormed(c) && z <= TypeCount
    ensures WellFormed(r)
    ensures 0 <= r.zoneSizes[z] <= 999
    ensures parsed.None? ==> r.zoneSizes[z] == 1
    ensures parsed.Some? && 0 <= parsed.value <= 999 ==> r.zoneSizes[z] == parsed.value
    ensures parsed.Some? ==> r.zoneSizes[z] == ClampInt(parsed.value, 0, 999)
    ensures forall k :: 0 <= k <= TypeCount && k != z ==> r.zoneSizes[k] == c.zoneSizes[k]
    ensures r == c.(zoneSizes := r.zoneSizes)
  {
    c.(zoneSizes := c.zoneSizes[z := IntInput(parsed, 1, 0, 999)])
  }

  /** One pass over the four fields in the order rows, columns, depth,
      width: the spacings match the final sizes and counts, each of which
      lies in its field's range. */
  lemma SpacingsFollowEdits(c: Config, x: Option<real>, y: Option<real>, cols: Option<int>, rows: Option<int>)
    ensures var r := SetWarehouseX(SetWarehouseY(SetShelfX(SetShelfY(c, rows), cols), y), x);
            && r.distanceBetweenShelves == ShelfSpacing(r.buildingY, r.shelfRows)
            && r.distanceToWall == WallDistance(r.buildingX, r.shelfColumns)
            && 8.0 <= r.buildingX <= 100.0 && 8.0 <= r.buildingY <= 100.0
            && 1 <= r.shelfColumns <= 100 && 1 <= r.shelfRows <= 100
  {
  }

  /** An edit of one size or count field; its handler is `ApplyEdit`. */
  datatype SizeEdit =
    | WarehouseX(width: Option<real>)
    | WarehouseY(depth: Option<real>)
    | ShelfX(columns: Option<int>)
    | ShelfY(rows: Option<int>)

  /** The handler an edit triggers. None of them produces a row count of -1. */
  function ApplyEdit(c: Config, e: SizeEdit): (r: Config)
    requires c.shelfRows != -1
    ensures r.shelfRows != -1
  {
    match e
    case WarehouseX(v) => SetWarehouseX(c, v)
    case WarehouseY(v) => SetWarehouseY(c, v)
    case ShelfX(v) => SetShelfX(c, v)
    case ShelfY(v) => SetShelfY(c, v)
  }

  /** The edits applied in order. */
  function ApplyEdits(c: Config, edits: seq<SizeEdit>): (r: Config)
    requires c.shelfRows != -1
    ensures r.shelfRows != -1
    decreases |edits|
  {
    if edits == [] then c else ApplyEdits(ApplyEdit(c, edits[0]), edits[1..])
  }

  /** Whatever size and count edits are made, in whatever order and however
      often, the stored spacings afterwards match the final sizes and counts. */
  lemma {:induction false} EditsKeepSpacingsCurrent(c: Config, edits: seq<SizeEdit>)
    requires c.shelfRows != -1
    requires edits != [] || SpacingCurrent(c)
    ensures SpacingCurrent(ApplyEdits(c, edits))
    decreases |edits|
  {
    if edits != [] {
      EditsKeepSpacingsCurrent(ApplyEdit(c, edits[0]), edits[1..]);
    }
  }

  /** Typing "0" into all three time fields sets a zero time limit: the menu
      accepts it, since 0 lies inside every field's clamp range. */
  lemma ZeroTimeLimitAccepted(c: Config)
    requires WellFormed(c)
    ensures SecondSet(MinuteSet(HoursSet(c, Some(0.0)), Some(0.0)), Some(0.0)).timeLimit == [0.0, 0.0, 0.0]
  {
  }
}
