/** Properties of `GenerateRoom` that relate several calls or several parts
    of one call: reproducibility from the draws alone, the fields it never
    reads, zones without rows, the sort-mode type pick and the job filter. */
module GeneratorProperties {
  import opened Wrappers
  import opened Numeric
  import opened Boxes
  import opened Settings
  import opened ZoneMap
  import opened Generator

  /** Two draw streams agree on the draws numbered `lo..hi-1`. */
  predicate Agree(s1: Stream, s2: Stream, lo: nat, hi: nat) {
    forall i :: lo <= i < hi ==> s1(i) == s2(i)
  }

  lemma AgreeWithin(s1: Stream, s2: Stream, lo: nat, hi: nat, lo': nat, hi': nat)
    requires Agree(s1, s2, lo, hi) && lo <= lo' && hi' <= hi
    ensures Agree(s1, s2, lo', hi')
  {
  }

  lemma {:induction false} FetchBoxesLocal(kind: Types, weight: real, row: nat, column: nat, slot: nat, base: nat, s1: Stream, s2: Stream)
    requires slot <= SlotCount && Agree(s1, s2, base + slot, base + SlotCount)
    ensures FetchBoxes(kind, weight, row, column, slot, base, s1) == FetchBoxes(kind, weight, row, column, slot, base, s2)
    decreases SlotCount - slot
  {
    if slot < SlotCount {
      assert s1(base + slot) == s2(base + slot);
      FetchBoxesLocal(kind, weight, row, column, slot + 1, base, s1, s2);
    }
  }

  lemma {:induction false} SortBoxesLocal(weights: seq<real>, row: nat, column: nat, slot: nat, base: nat, s1: Stream, s2: Stream)
    requires |weights| == TypeCount && slot <= SlotCount
    requires Agree(s1, s2, base + 2 * slot, base + 2 * SlotCount)
    ensures SortBoxes(weights, row, column, slot, base, s1) == SortBoxes(weights, row, column, slot, base, s2)
    decreases SlotCount - slot
  {
    if slot < SlotCount {
      SortBoxesLocal(weights, row, column, slot + 1, base, s1, s2);
      var u1, u2 := s1(base + 2 * slot), s2(base + 2 * slot);
      assert u1 == u2;
      assert SortPick(u1) == SortPick(u2);
      assert s1(base + 2 * slot + 1) == s2(base + 2 * slot + 1);
    }
  }

  lemma ShelfBoxesLocal(mode: JobType, weights: seq<real>, color: int, row: nat, column: nat, cursor: nat, s1: Stream, s2: Stream)
    requires |weights| == TypeCount && 0 <= color <= TypeCount
    requires Agree(s1, s2, cursor, cursor + ShelfDraws(mode, color))
    ensures ShelfBoxes(mode, weights, color, row, column, cursor, s1) == ShelfBoxes(mode, weights, color, row, column, cursor, s2)
  {
    if mode == Fetching && color != 0 {
      FetchBoxesLocal(TypeOfValue(color - 1).value, weights[color - 1], row, column, 0, cursor, s1, s2);
    } else if mode == Sorting && color == 0 {
      SortBoxesLocal(weights, row, column, 0, cursor, s1, s2);
    }
  }

  lemma PopulateShelfLocal(mode: JobType, weights: seq<real>, colors: seq<int>, row: nat, column: nat, pop: Population, s1: Stream, s2: Stream)
    requires |weights| == TypeCount && row < |colors| && 0 <= colors[row] <= TypeCount && |pop.placed| == TypeCount
    requires Agree(s1, s2, pop.cursor, pop.cursor + ShelfDraws(mode, colors[row]))
    ensures PopulateShelf(mode, weights, colors, row, column, pop, s1)
         == PopulateShelf(mode, weights, colors, row, column, pop, s2)
  {
    ShelfBoxesLocal(mode, weights, colors[row], row, column, pop.cursor, s1, s2);
  }

  lemma {:induction false} PopulateRowLocal(mode: JobType, weights: seq<real>, columns: nat, colors: seq<int>, row: nat, column: nat, pop: Population, s1: Stream, s2: Stream)
    requires |weights| == TypeCount && row < |colors| && 0 <= colors[row] <= TypeCount && column <= columns && |pop.placed| == TypeCount
    requires Agree(s1, s2, pop.cursor, pop.cursor + RowDraws(columns - column, ShelfDraws(mode, colors[row])))
    ensures PopulateRow(mode, weights, columns, colors, row, column, pop, s1)
         == PopulateRow(mode, weights, columns, colors, row, column, pop, s2)
    decreases columns - column
  {
    if column < columns {
      var per := ShelfDraws(mode, colors[row]);
      var hi := pop.cursor + RowDraws(columns - column, per);
      AgreeWithin(s1, s2, pop.cursor, hi, pop.cursor, pop.cursor + per);
      PopulateShelfLocal(mode, weights, colors, row, column, pop, s1, s2);
      var next := PopulateShelf(mode, weights, colors, row, column, pop, s1);
      AgreeWithin(s1, s2, pop.cursor, hi, next.cursor, next.cursor + RowDraws(columns - (column + 1), per));
      PopulateRowLocal(mode, weights, columns, colors, row, column + 1, next, s1, s2);
      assert PopulateRow(mode, weights, columns, colors, row, column, pop, s1) == PopulateRow(mode, weights, columns, colors, row, column + 1, next, s1);
      assert PopulateRow(mode, weights, columns, colors, row, column, pop, s2) == PopulateRow(mode, weights, columns, colors, row, column + 1, next, s2);
    }
  }

  lemma {:induction false} PopulateGridLocal(mode: JobType, weights: seq<real>, columns: nat, colors: seq<int>, row: nat, pop: Population, s1: Stream, s2: Stream)
    requires |weights| == TypeCount && row <= |colors| && |pop.placed| == TypeCount
    requires forall y :: 0 <= y < |colors| ==> 0 <= colors[y] <= TypeCount
    requires Agree(s1, s2, pop.cursor, pop.cursor + GridDraws(mode, columns, colors, row))
    ensures PopulateGrid(mode, weights, columns, colors, row, pop, s1)
         == PopulateGrid(mode, weights, columns, colors, row, pop, s2)
    decreases |colors| - row
  {
    if row < |colors| {
      var per := RowDraws(columns, ShelfDraws(mode, colors[row]));
      var hi := pop.cursor + GridDraws(mode, columns, colors, row);
      AgreeWithin(s1, s2, pop.cursor, hi, pop.cursor, pop.cursor + per);
      PopulateRowLocal(mode, weights, columns, colors, row, 0, pop, s1, s2);
      var next := PopulateRow(mode, weights, columns, colors, row, 0, pop, s1);
      AgreeWithin(s1, s2, pop.cursor, hi, next.cursor, next.cursor + GridDraws(mode, columns, colors, row + 1));
      PopulateGridLocal(mode, weights, columns, colors, row + 1, next, s1, s2);
      assert PopulateGrid(mode, weights, columns, colors, row, pop, s1) == PopulateGrid(mode, weights, columns, colors, row + 1, next, s1);
      assert PopulateGrid(mode, weights, columns, colors, row, pop, s2) == PopulateGrid(mode, weights, columns, colors, row + 1, next, s2);
    }
  }

  lemma {:induction false} KeepFilterLocal(boxes: seq<Box>, percent: int, cursor: nat, s1: Stream, s2: Stream)
    requires Agree(s1, s2, cursor, cursor + |boxes|)
    ensures KeepFilter(boxes, percent, cursor, s1) == KeepFilter(boxes, percent, cursor, s2)
    decreases |boxes|
  {
    if boxes != [] {
      assert s1(cursor) == s2(cursor);
      KeepFilterLocal(boxes[1..], percent, cursor + 1, s1, s2);
    }
  }

  lemma {:induction false} SelectJobsLocal(placed: seq<seq<Box>>, percent: int, cursor: nat, s1: Stream, s2: Stream)
    requires Agree(s1, s2, cursor, cursor + TotalLength(placed))
    ensures SelectJobs(placed, percent, cursor, s1) == SelectJobs(placed, percent, cursor, s2)
    decreases |placed|
  {
    if placed != [] {
      KeepFilterLocal(placed[0], percent, cursor, s1, s2);
      var first := KeepFilter(placed[0], percent, cursor, s1);
      SelectJobsLocal(placed[1..], percent, first.1, s1, s2);
    }
  }

  /** Reproducibility: a room is determined by the configuration and the
      draws it consumed. Two generators seeded alike agree on every draw, so
      they build the same room; two streams that differ only after the last
      draw consumed build the same room as well. */
  lemma GenerateRoomDependsOnlyOnConsumedDraws(cfg: Config, s1: Stream, s2: Stream)
    requires WellFormed(cfg) && cfg.shelfRows >= 0
    requires Agree(s1, s2, 0, GenerateRoom(cfg, s1).value.cursor)
    ensures GenerateRoom(cfg, s2) == GenerateRoom(cfg, s1)
  {
    var zones := AssignZones(cfg.shelfRows, cfg.zoneSizes);
    var colors := zones.colors;
    ColorsInRange(cfg.shelfRows, cfg.zoneSizes);
    var columns := Columns(cfg);
    var empty := Population([], seq(TypeCount, _ => []), 0);
    var pop := PopulateGrid(cfg.jobType, cfg.boxWeights, columns, colors, 0, empty, s1);
    AgreeWithin(s1, s2, 0, GenerateRoom(cfg, s1).value.cursor, 0, GridDraws(cfg.jobType, columns, colors, 0));
    PopulateGridLocal(cfg.jobType, cfg.boxWeights, columns, colors, 0, empty, s1, s2);
    if cfg.jobType == Fetching {
      SelectJobsLocal(pop.placed, cfg.searchPercent, pop.cursor, s1, s2);
    }
  }

  /** Which boxes a room holds: a box stands in a slot of the shelf at
      (row, column) exactly when that shelf is on the grid and the shelf
      rule admits the box, reading the draws from where that shelf's draws
      start, after every shelf visited before it. */
  lemma RoomBoxes(cfg: Config, draws: Stream, b: Box)
    requires WellFormed(cfg) && cfg.shelfRows >= 0
    ensures var room := GenerateRoom(cfg, draws).value;
            b in room.spawned <==>
              && b.row < |room.colors| && b.column < Columns(cfg)
              && ShelfRule(cfg.jobType, cfg.boxWeights, room.colors[b.row],
                           ShelfCursor(cfg.jobType, Columns(cfg), room.colors, b.row, b.column), draws, b)
  {
    RoomParts(cfg, draws);
    InitialGridSpawns(cfg.jobType, cfg.boxWeights, Columns(cfg), GenerateRoom(cfg, draws).value.colors, draws, b);
  }

  /** Fetch mode's per-type lists: list `t` holds the room's boxes of type
      `t`, in the order they were instantiated. */
  lemma FetchRoomLists(cfg: Config, draws: Stream)
    requires WellFormed(cfg) && cfg.shelfRows >= 0 && cfg.jobType == Fetching
    ensures var room := GenerateRoom(cfg, draws).value;
            forall t :: 0 <= t < TypeCount ==> room.placed[t] == OfType(room.spawned, t)
  {
    var colors := AssignZones(cfg.shelfRows, cfg.zoneSizes).colors;
    RoomParts(cfg, draws);
    GridKeepsRecorded(cfg.boxWeights, Columns(cfg), colors, 0, Population([], seq(TypeCount, _ => []), 0), draws);
  }

  /** Fetch mode's jobs: job `t` is the filter of per-type list `t`, reading
      its draws after the grid's and after those of every list before it. */
  lemma FetchRoomJob(cfg: Config, draws: Stream, room: Room, t: nat)
    requires WellFormed(cfg) && cfg.jobType == Fetching && GenerateRoom(cfg, draws) == Some(room) && t < TypeCount
    ensures room.jobs[t] == KeepFilter(room.placed[t], cfg.searchPercent,
                                       GridDraws(Fetching, Columns(cfg), room.colors, 0) + TotalLength(room.placed[..t]), draws).0
  {
    RoomJobList(cfg, draws, room);
    JobOfList(room.placed, cfg.searchPercent, GridDraws(Fetching, Columns(cfg), room.colors, 0), draws, room.jobs, t);
  }

  /** The enable flags, the seed and the derived spacings are never read:
      configurations that differ only in them generate the same room. */
  lemma GenerateRoomIgnoresUnreadFields(cfg: Config, boxTypes: seq<bool>, seed: int, between: real, toWall: real, draws: Stream)
    requires WellFormed(cfg) && |boxTypes| == TypeCount
    ensures GenerateRoom(cfg.(boxTypes := boxTypes, seed := seed, distanceBetweenShelves := between, distanceToWall := toWall), draws)
         == GenerateRoom(cfg, draws)
  {
  }

  /** A box type whose zone has no rows gets no boxes in fetch mode, and its
      placed list stays empty in either mode. */
  lemma ZoneWithoutRowsGetsNoBoxes(cfg: Config, draws: Stream, t: nat)
    requires WellFormed(cfg) && cfg.shelfRows >= 0 && t < TypeCount
    requires cfg.zoneSizes[t + 1] <= 0
    ensures GenerateRoom(cfg, draws).value.placed[t] == []
    ensures cfg.jobType == Fetching ==>
              forall b :: b in GenerateRoom(cfg, draws).value.spawned ==> TypeValue(b.kind) != t
  {
    var room := GenerateRoom(cfg, draws).value;
    if cfg.jobType == Fetching {
      NoBoxesOfEmptyZone(cfg.zoneSizes, room.colors, Columns(cfg), room.spawned, room.placed, t);
    }
  }

  lemma NoBoxesOfEmptyZone(sizes: seq<int>, colors: seq<int>, columns: nat, spawned: seq<Box>, placed: seq<seq<Box>>, t: nat)
    requires Consistent(Fetching, columns, colors, spawned, placed)
    requires forall y :: 0 <= y < |colors| ==> colors[y] == ZoneOfRow(sizes, y)
    requires t < TypeCount && t + 1 < |sizes| && sizes[t + 1] <= 0
    ensures forall b :: b in spawned ==> TypeValue(b.kind) != t
    ensures placed[t] == []
  {
    forall b | b in spawned
      ensures TypeValue(b.kind) != t
    {
      ZoneOfRowCharacterized(sizes, b.row);
    }
    assert forall x :: x in placed[t] ==> x in spawned && TypeValue(x.kind) == t;
    EmptyOrHasHead(placed[t]);
  }

  /** Every job box is one of the placed boxes of its type. */
  lemma SubsequenceContained<T>(a: seq<T>, b: seq<T>)
    requires IsSubsequence(a, b)
    ensures forall x :: x in a ==> x in b
  {
    forall k | 0 <= k < |a|
      ensures a[k] in b
    {
      SubsequenceFromContained(a, b, 0, 0, k);
    }
  }

  lemma {:induction false} SubsequenceFromContained<T>(a: seq<T>, b: seq<T>, i: nat, j: nat, k: nat)
    requires i <= k < |a| && j <= |b| && SubsequenceFrom(a, b, i, j)
    ensures a[k] in b
    decreases |b| - j
  {
    if j < |b| {
      if a[i] == b[j] && SubsequenceFrom(a, b, i + 1, j + 1) {
        if k > i {
          SubsequenceFromContained(a, b, i + 1, j + 1, k);
        }
      } else {
        SubsequenceFromContained(a, b, i, j + 1, k);
      }
    }
  }

  lemma JobsArePlaced(cfg: Config, draws: Stream)
    requires WellFormed(cfg) && cfg.shelfRows >= 0
    ensures forall t, b :: 0 <= t < TypeCount && b in GenerateRoom(cfg, draws).value.jobs[t] ==>
              b in GenerateRoom(cfg, draws).value.placed[t]
  {
    var room := GenerateRoom(cfg, draws).value;
    forall t | 0 <= t < TypeCount
      ensures forall b :: b in room.jobs[t] ==> b in room.placed[t]
    {
      SubsequenceContained(room.jobs[t], room.placed[t]);
    }
  }

  /** The job filter's edges: a percentage above 100 keeps every box, one of
      0 or less keeps none, and at 100 a box is dropped exactly when its draw
      is 1.0, which `Random.value` can return. */
  lemma AcceptsBounds(u: Draw, percent: int)
    ensures percent > 100 ==> Accepts(u, percent)
    ensures percent <= 0 ==> !Accepts(u, percent)
    ensures Accepts(u, 100) <==> u < 1.0
  {
    var f := (u * 100.0).Floor;
    assert f as real <= u * 100.0 < f as real + 1.0;
  }

  /** End markers of one row: -1 on the first column, +1 on the last when
      there are two or more, 0 in between; a single column is first. */
  lemma EndMarkersOfARow(columns: nat, x: nat)
    requires x < columns
    ensures EndMarker(x, columns) == -1 <==> x == 0
    ensures EndMarker(x, columns) == 1 <==> x != 0 && x == columns - 1
    ensures EndMarker(x, columns) == 0 <==> 0 < x < columns - 1
  {
  }
}
