/** The generator's configuration: what the main menu, the inspector and the
    templates write and what `GenerateRoom` and the HUD read. */
module Settings {
  import opened Boxes

  /** The two game modes; the dropdown writes 0 for sorting and 1 for fetching. */
  datatype JobType = Sorting | Fetching

  /** One configuration record. `timeLimit` holds hours, minutes and seconds;
      `boxTypes`/`boxWeights` are indexed by box type and `zoneSizes` by zone
      (0 is the mixed zone). */
  datatype Config = Config(
    seed: int,
    jobType: JobType,
    searchPercent: int,
    timeLimit: seq<real>,
    buildingX: real,
    buildingY: real,
    shelfColumns: int,
    shelfRows: int,
    distanceBetweenShelves: real,
    distanceToWall: real,
    boxTypes: seq<bool>,
    boxWeights: seq<real>,
    zoneSizes: seq<int>)

  /** The array lengths every writer of the configuration uses. */
  predicate WellFormed(c: Config) {
    && |c.timeLimit| == 3
    && |c.boxTypes| == TypeCount
    && |c.boxWeights| == TypeCount
    && |c.zoneSizes| == TypeCount + 1
  }

  /** Number of shelves per row the grid loop visits: `x` runs from 0.5 while
      below `shelfColumns`, so a non-positive count visits none. */
  function Columns(c: Config): nat {
    if c.shelfColumns < 0 then 0 else c.shelfColumns
  }

  /** Gap between shelf rows: `(Y - rows) / (rows + 1)`. Its meaning: `rows`
      one-metre rows and `rows + 1` equal gaps fill the building's depth. */
  function ShelfSpacing(buildingY: real, shelfRows: int): (d: real)
    requires shelfRows != -1
    ensures shelfRows as real + d * (shelfRows + 1) as real == buildingY
  {
    (buildingY - shelfRows as real) / (shelfRows + 1) as real
  }

  /** Clearance to the side walls: `(X - 4 * columns) / 2`. Its meaning: the
      four-metre-wide columns plus two equal clearances fill the width. */
  function WallDistance(buildingX: real, shelfColumns: int): (d: real)
    ensures 4.0 * shelfColumns as real + 2.0 * d == buildingX
  {
    (buildingX - shelfColumns as real * 4.0) / 2.0
  }

  /** The two derived spacings agree with the current size and counts. */
  predicate SpacingCurrent(c: Config) {
    && c.shelfRows != -1
    && c.distanceBetweenShelves == ShelfSpacing(c.buildingY, c.shelfRows)
    && c.distanceToWall == WallDistance(c.buildingX, c.shelfColumns)
  }

  /** The spacing functions invert the layout: a building exactly as deep and
      wide as the rows, columns and gaps it holds gives back those gaps. */
  lemma SpacingRoundTrip(rows: nat, columns: int, gap: real, clearance: real)
    ensures ShelfSpacing(rows as real + gap * (rows + 1) as real, rows) == gap
    ensures WallDistance(4.0 * columns as real + 2.0 * clearance, columns) == clearance
  {
    var y := rows as real + gap * (rows + 1) as real;
    var d := ShelfSpacing(y, rows);
    assert (d - gap) * (rows + 1) as real == 0.0;
  }
}
