/** `WarehouseGenerator.GenerateRoom` without the meshes: the zone map, the
    shelf grid, box population in fetch and sort mode, and job selection.
    Unity's random generator is an explicit stream of draws. */
module Generator {
  import opened Wrappers
  import opened Numeric
  import opened Boxes
  import opened Settings
  import opened ZoneMap

  /** One `Random.value`: a float in [0, 1], both ends included. */
  type Draw = u: real | 0.0 <= u <= 1.0

  /** The random generator after `Random.InitState(seed)`: draw number `i`
      is `draws(i)`. */
  type Stream = nat -> Draw

  /** Length of `_boxPositions`: the box slots of one shelf. */
  const SlotCount: nat := 12

  /** An instantiated box: its type and the shelf slot it was put in. */
  datatype Box = Box(kind: Types, row: nat, column: nat, slot: nat)

  /** A shelf of the grid: its indices, floor-quad end marker and zone. */
  datatype Shelf = Shelf(row: nat, column: nat, end: int, zone: Zones)

  /** Boxes generated so far: every instantiated box, the per-type
      `_placedBoxes` lists, and how many draws have been taken. */
  datatype Population = Population(spawned: seq<Box>, placed: seq<seq<Box>>, cursor: nat)

  /** What one `GenerateRoom` call leaves behind. */
  datatype Room = Room(
    colors: seq<int>,
    zoneWarning: bool,
    shelves: seq<seq<Shelf>>,
    spawned: seq<Box>,
    placed: seq<seq<Box>>,
    jobs: seq<seq<Box>>,
    cursor: nat)

  // ---------------------------------------------------------------- grid

  /** Floor-quad marker of column `indX`: -1 on the first column, +1 on the
      last, 0 between; the first-column test comes first. */
  function EndMarker(indX: int, columns: int): int {
    if indX == 0 then -1 else if indX == columns - 1 then 1 else 0
  }

  /** The zone a shelf gets from its row colour; a colour no switch arm
      matches keeps the prefab's default zone, Mixed. */
  function ShelfZone(color: int): Zones {
    ZoneOfValue(color).GetOr(Mixed)
  }

  function ShelfAt(colors: seq<int>, columns: nat, y: nat, x: nat): Shelf
    requires y < |colors|
  {
    Shelf(y, x, EndMarker(x, columns), ShelfZone(colors[y]))
  }

  /** The shelves of row `y` from column `x` on, in visiting order. */
  function RowShelves(colors: seq<int>, columns: nat, y: nat, x: nat): (r: seq<Shelf>)
    requires y < |colors| && x <= columns
    ensures |r| == columns - x
    ensures forall i :: x <= i < columns ==> r[i - x] == ShelfAt(colors, columns, y, i)
    decreases columns - x
  {
    if x == columns then [] else [ShelfAt(colors, columns, y, x)] + RowShelves(colors, columns, y, x + 1)
  }

  /** The shelf grid from row `y` on, one list of shelves per row. */
  function GridShelves(colors: seq<int>, columns: nat, y: nat): (r: seq<seq<Shelf>>)
    requires y <= |colors|
    ensures |r| == |colors| - y
    ensures forall i :: y <= i < |colors| ==> r[i - y] == RowShelves(colors, columns, i, 0)
    decreases |colors| - y
  {
    if y == |colors| then []
    else [RowShelves(colors, columns, y, 0)] + GridShelves(colors, columns, y + 1)
  }

  /** The grid holds one row per colour and, in each, one shelf per column. */
  lemma GridShelvesIndexed(colors: seq<int>, columns: nat)
    ensures |GridShelves(colors, columns, 0)| == |colors|
    ensures forall y :: 0 <= y < |colors| ==> |GridShelves(colors, columns, 0)[y]| == columns
    ensures forall y, x :: 0 <= y < |colors| && 0 <= x < columns ==>
              GridShelves(colors, columns, 0)[y][x] == ShelfAt(colors, columns, y, x)
  {
    var g := GridShelves(colors, columns, 0);
    forall y | 0 <= y < |colors|
      ensures g[y] == RowShelves(colors, columns, y, 0)
    {
      assert g[y - 0] == RowShelves(colors, columns, y, 0);
    }
    forall y, x | 0 <= y < |colors| && 0 <= x < columns
      ensures g[y][x] == ShelfAt(colors, columns, y, x)
    {
      var row := RowShelves(colors, columns, y, 0);
      assert row[x - 0] == ShelfAt(colors, columns, y, x);
    }
  }

  /** With five zone sizes every row colour names a zone, 0..4. */
  lemma ColorsInRange(rows: nat, sizes: seq<int>)
    requires |sizes| == TypeCount + 1
    ensures forall y :: 0 <= y < rows ==> 0 <= AssignZones(rows, sizes).colors[y] <= TypeCount
  {
    forall y | 0 <= y < rows
      ensures 0 <= AssignZones(rows, sizes).colors[y] <= TypeCount
    {
      ZoneOfRowCharacterized(sizes, y);
    }
  }

  /** An empty population is consistent with any zone map. */
  lemma EmptyConsistent(mode: JobType, columns: nat, colors: seq<int>)
    ensures Consistent(mode, columns, colors, [], seq(TypeCount, _ => []))
  {
  }

  // ---------------------------------------------------------- population

  /** The mode rule for a box in a row of colour `color`: fetch mode fills
      the zone of the box's own type, sort mode fills mixed rows only. */
  predicate Fits(mode: JobType, color: int, b: Box) {
    if mode == Fetching then color == TypeValue(b.kind) + 1 else color == 0
  }

  /** Invariant of the population walk over the rows `colors`. Every box lies
      on the grid in a row its mode allows; `placed[t]` holds boxes of type
      `t` only, all of them instantiated; in fetch mode every instantiated box
      is recorded in its type's list, in sort mode nothing is recorded. */
  predicate Consistent(mode: JobType, columns: nat, colors: seq<int>, spawned: seq<Box>, placed: seq<seq<Box>>) {
    && |placed| == TypeCount
    && (forall b :: b in spawned ==>
          b.row < |colors| && b.column < columns && b.slot < SlotCount && Fits(mode, colors[b.row], b))
    && (forall t, b :: 0 <= t < TypeCount && b in placed[t] ==> TypeValue(b.kind) == t && b in spawned)
    && (mode == Fetching ==> forall b :: b in spawned ==> b in placed[TypeValue(b.kind)])
    && (mode == Sorting ==> forall t :: 0 <= t < TypeCount ==> placed[t] == [])
  }

  /** Fetch mode, slots `slot..` of one shelf of a row of type `kind`, slot
      `s` reading draw `base + s`. */
  function FetchBoxes(kind: Types, weight: real, row: nat, column: nat, slot: nat, base: nat, draws: Stream): seq<Box>
    requires slot <= SlotCount
    decreases base + SlotCount - (base + slot)  // the shelf's draws still to read
  {
    if slot == SlotCount then []
    else
      var here := if weight > draws(base + slot) then [Box(kind, row, column, slot)] else [];
      here + FetchBoxes(kind, weight, row, column, slot + 1, base, draws)
  }

  /** Fetch mode puts a box of type `kind` exactly in the slots whose draw
      the type's weight exceeds. */
  lemma {:induction false} FetchBoxesCharacterized(kind: Types, weight: real, row: nat, column: nat, slot: nat, base: nat, draws: Stream)
    requires slot <= SlotCount
    ensures forall b :: b in FetchBoxes(kind, weight, row, column, slot, base, draws) <==>
              && b.kind == kind && b.row == row && b.column == column
              && slot <= b.slot < SlotCount
              && weight > draws(base + b.slot)
    decreases SlotCount - slot
  {
    if slot < SlotCount {
      FetchBoxesCharacterized(kind, weight, row, column, slot + 1, base, draws);
      var here := if weight > draws(base + slot) then [Box(kind, row, column, slot)] else [];
      var rest := FetchBoxes(kind, weight, row, column, slot + 1, base, draws);
      assert FetchBoxes(kind, weight, row, column, slot, base, draws) == here + rest;
      forall b: Box
        ensures b in here + rest <==>
              && b.kind == kind && b.row == row && b.column == column
              && slot <= b.slot < SlotCount
              && weight > draws(base + b.slot)
      {
        assert b in here + rest <==> b in here || b in rest;
        if b.slot == slot {
          assert b !in rest;
        } else {
          assert b !in here;
        }
      }
    }
  }

  /** Sort mode's type pick `Mathf.RoundToInt(Random.value * 3.0)`, used
      directly as an index into the four box types, written as the draw
      intervals that round to each index: the outer types get half the share
      of the inner ones. `SortPickRounds` proves it equal to the rounding. */
  function SortPick(u: Draw): Types {
    if u <= 1.0 / 6.0 then Blue
    else if u < 0.5 then Green
    else if u <= 5.0 / 6.0 then Yellow
    else Red
  }

  /** Rounding `3u` half to even gives exactly the interval table: 3u = 0.5
      rounds down to 0, 1.5 up to 2 and 2.5 down to 2. */
  lemma SortPickRounds(u: Draw)
    ensures TypeValue(SortPick(u)) == RoundToInt(u * 3.0)
  {
    var x := u * 3.0;
    var f := x.Floor;
    assert f as real <= x < f as real + 1.0;
    if u <= 1.0 / 6.0 {
      assert f == 0;
    } else if u < 0.5 {
      assert f == 0 || f == 1;
    } else if u <= 5.0 / 6.0 {
      assert f == 1 || f == 2;
    } else {
      assert f == 2 || f == 3;
    }
  }

  /** Sort mode, slot `slot` of one shelf of a mixed row, reading draws
      `base + 2 slot` and the one after: the first picks the type, the box is
      instantiated when the second falls below that type's weight. */
  function SortSlot(weights: seq<real>, row: nat, column: nat, slot: nat, base: nat, draws: Stream): seq<Box>
    requires |weights| == TypeCount
  {
    var t := SortPick(draws(base + 2 * slot));
    if weights[TypeValue(t)] > draws(base + 2 * slot + 1) then [Box(t, row, column, slot)] else []
  }

  /** Sort mode, slots `slot..` of one shelf of a mixed row. */
  function SortBoxes(weights: seq<real>, row: nat, column: nat, slot: nat, base: nat, draws: Stream): seq<Box>
    requires |weights| == TypeCount && slot <= SlotCount
    decreases base + 2 * SlotCount - (base + 2 * slot)  // the shelf's draws still to read
  {
    if slot == SlotCount then []
    else SortSlot(weights, row, column, slot, base, draws) + SortBoxes(weights, row, column, slot + 1, base, draws)
  }

  /** Sort mode's slot rule: the slot's first draw `draws(d)` picks the type
      and the second must fall below that type's weight. */
  predicate SortKeeps(weights: seq<real>, draws: Stream, d: nat, t: Types)
    requires |weights| == TypeCount
  {
    t == SortPick(draws(d)) && weights[TypeValue(t)] > draws(d + 1)
  }

  lemma SortSlotMembers(weights: seq<real>, row: nat, column: nat, slot: nat, base: nat, draws: Stream, b: Box)
    requires |weights| == TypeCount
    ensures b in SortSlot(weights, row, column, slot, base, draws) <==>
              b.row == row && b.column == column && b.slot == slot && SortKeeps(weights, draws, base + 2 * b.slot, b.kind)
  {
  }

  /** Sort mode puts a box in a slot exactly when that slot's two draws
      pass the rule, and the box has the type the first draw picked. */
  lemma {:induction false} SortBoxesCharacterized(weights: seq<real>, row: nat, column: nat, slot: nat, base: nat, draws: Stream)
    requires |weights| == TypeCount && slot <= SlotCount
    ensures forall b :: b in SortBoxes(weights, row, column, slot, base, draws) <==>
              && b.row == row && b.column == column
              && slot <= b.slot < SlotCount
              && SortKeeps(weights, draws, base + 2 * b.slot, b.kind)
    decreases SlotCount - slot
  {
    if slot < SlotCount {
      SortBoxesCharacterized(weights, row, column, slot + 1, base, draws);
      var here := SortSlot(weights, row, column, slot, base, draws);
      var rest := SortBoxes(weights, row, column, slot + 1, base, draws);
      assert SortBoxes(weights, row, column, slot, base, draws) == here + rest;
      forall b: Box
        ensures b in here + rest <==>
              && b.row == row && b.column == column
              && slot <= b.slot < SlotCount
              && SortKeeps(weights, draws, base + 2 * b.slot, b.kind)
      {
        SortSlotMembers(weights, row, column, slot, base, draws, b);
        assert b in here + rest <==> b in here || b in rest;
      }
    }
  }

  /** Every box of a fetch-mode shelf has the row's type and lies on that
      shelf. */
  lemma {:induction false} FetchBoxesOnShelf(kind: Types, weight: real, row: nat, column: nat, slot: nat, base: nat, draws: Stream)
    requires slot <= SlotCount
    ensures forall b :: b in FetchBoxes(kind, weight, row, column, slot, base, draws) ==>
              b.kind == kind && b.row == row && b.column == column && b.slot < SlotCount
    decreases SlotCount - slot
  {
    if slot < SlotCount {
      FetchBoxesOnShelf(kind, weight, row, column, slot + 1, base, draws);
    }
  }

  /** Every box of a sort-mode shelf lies on that shelf. */
  lemma {:induction false} SortBoxesOnShelf(weights: seq<real>, row: nat, column: nat, slot: nat, base: nat, draws: Stream)
    requires |weights| == TypeCount && slot <= SlotCount
    ensures forall b :: b in SortBoxes(weights, row, column, slot, base, draws) ==>
              b.row == row && b.column == column && b.slot < SlotCount
    decreases SlotCount - slot
  {
    if slot < SlotCount {
      SortBoxesOnShelf(weights, row, column, slot + 1, base, draws);
    }
  }

  /** Draws one shelf consumes: a slot each on a coloured row in fetch mode,
      two per slot on a mixed row in sort mode, none otherwise. */
  function ShelfDraws(mode: JobType, color: int): nat {
    if mode == Fetching && color != 0 then SlotCount
    else if mode == Sorting && color == 0 then 2 * SlotCount
    else 0
  }

  /** The boxes the shelf at (`row`, `column`) instantiates, in slot order,
      on a row of colour `color`: the fetch rule on a coloured row in fetch
      mode, the sort rule on a mixed row in sort mode, none otherwise. */
  function ShelfBoxes(mode: JobType, weights: seq<real>, color: int, row: nat, column: nat, cursor: nat, draws: Stream): seq<Box>
    requires |weights| == TypeCount && 0 <= color <= TypeCount
  {
    if mode == Fetching && color != 0 then
      FetchBoxes(TypeOfValue(color - 1).value, weights[color - 1], row, column, 0, cursor, draws)
    else if mode == Sorting && color == 0 then
      SortBoxes(weights, row, column, 0, cursor, draws)
    else
      []
  }

  /** The per-type lists after a shelf instantiated `added`: fetch mode
      appends them to the list of the row's type, sort mode records none. */
  function Record(mode: JobType, color: int, placed: seq<seq<Box>>, added: seq<Box>): seq<seq<Box>>
    requires 0 <= color <= TypeCount && |placed| == TypeCount
  {
    if mode == Fetching && color != 0 then placed[color - 1 := placed[color - 1] + added] else placed
  }

  /** One shelf of the population walk. */
  function PopulateShelf(mode: JobType, weights: seq<real>, colors: seq<int>, row: nat, column: nat, pop: Population, draws: Stream): (r: Population)
    requires |weights| == TypeCount && row < |colors| && 0 <= colors[row] <= TypeCount && |pop.placed| == TypeCount
    ensures |r.placed| == TypeCount
    ensures r.cursor == pop.cursor + ShelfDraws(mode, colors[row])
    ensures r.spawned == pop.spawned + ShelfBoxes(mode, weights, colors[row], row, column, pop.cursor, draws)
    ensures r.placed == Record(mode, colors[row], pop.placed, ShelfBoxes(mode, weights, colors[row], row, column, pop.cursor, draws))
  {
    var added := ShelfBoxes(mode, weights, colors[row], row, column, pop.cursor, draws);
    Population(pop.spawned + added, Record(mode, colors[row], pop.placed, added), pop.cursor + ShelfDraws(mode, colors[row]))
  }

  /** Every box of a shelf lies on that shelf, in a row its mode allows. */
  lemma ShelfBoxesOnShelf(mode: JobType, weights: seq<real>, color: int, row: nat, column: nat, cursor: nat, draws: Stream)
    requires |weights| == TypeCount && 0 <= color <= TypeCount
    ensures forall b :: b in ShelfBoxes(mode, weights, color, row, column, cursor, draws) ==>
              b.row == row && b.column == column && b.slot < SlotCount && Fits(mode, color, b)
  {
    if mode == Fetching && color != 0 {
      FetchBoxesOnShelf(TypeOfValue(color - 1).value, weights[color - 1], row, column, 0, cursor, draws);
    } else if mode == Sorting && color == 0 {
      SortBoxesOnShelf(weights, row, column, 0, cursor, draws);
    }
  }

  /** Whether the shelf rule puts box `b` on its shelf when the shelf stands
      in a row of colour `color` and its draws start at `cursor`. In fetch
      mode a coloured row takes boxes of its own type, in the slots whose
      draw that type's weight exceeds; in sort mode a mixed row takes, in
      each slot, the type the slot's first draw picks when its second draw
      falls below that type's weight. */
  predicate ShelfRule(mode: JobType, weights: seq<real>, color: int, cursor: nat, draws: Stream, b: Box)
    requires |weights| == TypeCount && 0 <= color <= TypeCount
  {
    && b.slot < SlotCount
    && if mode == Fetching then
         color != 0 && TypeValue(b.kind) == color - 1 && weights[color - 1] > draws(cursor + b.slot)
       else
         color == 0 && SortKeeps(weights, draws, cursor + 2 * b.slot, b.kind)
  }

  /** A shelf instantiates exactly the boxes on it that its rule admits:
      box `b` is among them exactly when it lies on the shelf and the rule
      passes it. */
  lemma ShelfBoxCharacterized(mode: JobType, weights: seq<real>, color: int, row: nat, column: nat, cursor: nat, draws: Stream, b: Box)
    requires |weights| == TypeCount && 0 <= color <= TypeCount
    ensures b in ShelfBoxes(mode, weights, color, row, column, cursor, draws) <==>
              b.row == row && b.column == column && ShelfRule(mode, weights, color, cursor, draws, b)
  {
    if mode == Fetching && color != 0 {
      var kind := TypeOfValue(color - 1).value;
      FetchBoxesCharacterized(kind, weights[color - 1], row, column, 0, cursor, draws);
      TypeValuesAreTheTypeRange();
      assert b.kind == kind <==> TypeValue(b.kind) == color - 1;
    } else if mode == Sorting && color == 0 {
      SortBoxesCharacterized(weights, row, column, 0, cursor, draws);
    }
  }

  /** One shelf keeps the population consistent. */
  lemma ShelfKeepsConsistent(mode: JobType, weights: seq<real>, columns: nat, colors: seq<int>, row: nat, column: nat, pop: Population, draws: Stream)
    requires |weights| == TypeCount && row < |colors| && 0 <= colors[row] <= TypeCount && column < columns
    requires Consistent(mode, columns, colors, pop.spawned, pop.placed)
    ensures var r := PopulateShelf(mode, weights, colors, row, column, pop, draws);
              Consistent(mode, columns, colors, r.spawned, r.placed)
  {
    var added := ShelfBoxes(mode, weights, colors[row], row, column, pop.cursor, draws);
    ShelfBoxesOnShelf(mode, weights, colors[row], row, column, pop.cursor, draws);
    AddKeepsConsistent(mode, columns, colors, row, column, pop.spawned, pop.placed, added);
  }

  /** Adding boxes that lie on one shelf, in a row their mode allows, and
      recording them as the mode does keeps a population consistent. */
  lemma AddKeepsConsistent(mode: JobType, columns: nat, colors: seq<int>, row: nat, column: nat,
                           spawned: seq<Box>, placed: seq<seq<Box>>, added: seq<Box>)
    requires row < |colors| && 0 <= colors[row] <= TypeCount && column < columns
    requires Consistent(mode, columns, colors, spawned, placed)
    requires forall b :: b in added ==>
               b.row == row && b.column == column && b.slot < SlotCount && Fits(mode, colors[row], b)
    ensures Consistent(mode, columns, colors, spawned + added, Record(mode, colors[row], placed, added))
  {
    var color := colors[row];
    if mode == Fetching && color != 0 {
      FetchShelfConsistent(columns, colors, row, column, color - 1, spawned, placed, added);
    } else if mode == Sorting {
      SortShelfConsistent(columns, colors, row, column, spawned, placed, added);
    } else {
      EmptyOrHasHead(added);
      assert added == [];
      assert spawned + added == spawned;
    }
  }

  lemma EmptyOrHasHead<T>(s: seq<T>)
    ensures s == [] || s[0] in s
  {
  }

  /** `later` only appended to the instantiated boxes and to every per-type
      list of `earlier`. */
  predicate Grows(earlier: Population, later: Population) {
    && |earlier.placed| == |later.placed|
    && earlier.spawned <= later.spawned
    && (forall t :: 0 <= t < |earlier.placed| ==> earlier.placed[t] <= later.placed[t])
  }

  lemma GrowsTransitive(a: Population, b: Population, c: Population)
    requires Grows(a, b) && Grows(b, c)
    ensures Grows(a, c)
  {
  }

  lemma FetchShelfConsistent(columns: nat, colors: seq<int>, row: nat, column: nat, k: nat,
                             spawned: seq<Box>, placed: seq<seq<Box>>, added: seq<Box>)
    requires row < |colors| && colors[row] == k + 1 && k < TypeCount && column < columns
    requires Consistent(Fetching, columns, colors, spawned, placed)
    requires forall b :: b in added ==>
               TypeValue(b.kind) == k && b.row == row && b.column == column && b.slot < SlotCount
    ensures Consistent(Fetching, columns, colors, spawned + added, placed[k := placed[k] + added])
  {
    var placed' := placed[k := placed[k] + added];
    forall t: nat, b: Box | t < TypeCount && b in placed'[t]
      ensures TypeValue(b.kind) == t && b in spawned + added
    {
      if t != k {
        assert b in placed[t];
      } else if b !in placed[k] {
        assert b in added;
      }
    }
  }

  lemma SortShelfConsistent(columns: nat, colors: seq<int>, row: nat, column: nat,
                            spawned: seq<Box>, placed: seq<seq<Box>>, added: seq<Box>)
    requires row < |colors| && column < columns
    requires Consistent(Sorting, columns, colors, spawned, placed)
    requires forall b :: b in added ==>
               b.row == row && b.column == column && b.slot < SlotCount && Fits(Sorting, colors[row], b)
    ensures Consistent(Sorting, columns, colors, spawned + added, placed)
  {
    forall b | b in spawned + added
      ensures b.row < |colors| && b.column < columns && b.slot < SlotCount && Fits(Sorting, colors[b.row], b)
    {
      if b !in spawned {
        assert b in added;
      }
    }
  }

  /** Draws taken by `shelves` shelves of `per` draws each, counted shelf
      by shelf as the walk takes them. */
  function RowDraws(shelves: nat, per: nat): nat {
    if shelves == 0 then 0 else per + RowDraws(shelves - 1, per)
  }

  /** Every shelf of a row takes the same number of draws. */
  lemma {:induction false} RowDrawsIsProduct(shelves: nat, per: nat)
    ensures RowDraws(shelves, per) == shelves * per
  {
    if shelves > 0 {
      RowDrawsIsProduct(shelves - 1, per);
    }
  }

  /** The shelves of row `row` from column `column` on: every shelf of a
      row takes the same number of draws. */
  function PopulateRow(mode: JobType, weights: seq<real>, columns: nat, colors: seq<int>, row: nat, column: nat, pop: Population, draws: Stream): (r: Population)
    requires |weights| == TypeCount && row < |colors| && 0 <= colors[row] <= TypeCount && column <= columns && |pop.placed| == TypeCount
    ensures |r.placed| == TypeCount
    ensures r.cursor == pop.cursor + RowDraws(columns - column, ShelfDraws(mode, colors[row]))
    ensures pop.cursor <= r.cursor
    decreases columns - column
  {
    if column == columns then pop
    else
      var next := PopulateShelf(mode, weights, colors, row, column, pop, draws);
      PopulateRow(mode, weights, columns, colors, row, column + 1, next, draws)
  }

  /** The row walk keeps every invariant that each of its shelves keeps. */
  lemma {:induction false} RowPreserves(inv: Population -> bool, mode: JobType, weights: seq<real>, columns: nat, colors: seq<int>, row: nat, column: nat, pop: Population, draws: Stream)
    requires |weights| == TypeCount && row < |colors| && 0 <= colors[row] <= TypeCount && column <= columns && |pop.placed| == TypeCount
    requires inv(pop)
    requires forall c: nat, p: Population :: column <= c < columns && |p.placed| == TypeCount && inv(p) ==>
               inv(PopulateShelf(mode, weights, colors, row, c, p, draws))
    ensures inv(PopulateRow(mode, weights, columns, colors, row, column, pop, draws))
    decreases columns - column
  {
    if column < columns {
      var next := PopulateShelf(mode, weights, colors, row, column, pop, draws);
      assert inv(next);
      RowPreserves(inv, mode, weights, columns, colors, row, column + 1, next, draws);
      assert PopulateRow(mode, weights, columns, colors, row, column, pop, draws) == PopulateRow(mode, weights, columns, colors, row, column + 1, next, draws);
    }
  }

  /** A row keeps the population consistent. */
  lemma RowKeepsConsistent(mode: JobType, weights: seq<real>, columns: nat, colors: seq<int>, row: nat, column: nat, pop: Population, draws: Stream)
    requires |weights| == TypeCount && row < |colors| && 0 <= colors[row] <= TypeCount && column <= columns
    requires Consistent(mode, columns, colors, pop.spawned, pop.placed)
    ensures var r := PopulateRow(mode, weights, columns, colors, row, column, pop, draws);
              Consistent(mode, columns, colors, r.spawned, r.placed)
  {
    var inv := (p: Population) => Consistent(mode, columns, colors, p.spawned, p.placed);
    forall c: nat, p: Population | column <= c < columns && |p.placed| == TypeCount && inv(p)
      ensures inv(PopulateShelf(mode, weights, colors, row, c, p, draws))
    {
      ShelfKeepsConsistent(mode, weights, columns, colors, row, c, p, draws);
    }
    RowPreserves(inv, mode, weights, columns, colors, row, column, pop, draws);
  }

  /** The boxes a row walk from column `column` on instantiates: those it
      started with, and on each later shelf of the row exactly the boxes the
      shelf rule admits, the shelf's draws starting after those of the
      shelves before it. */
  lemma {:induction false} RowSpawns(mode: JobType, weights: seq<real>, columns: nat, colors: seq<int>, row: nat, column: nat, pop: Population, draws: Stream)
    requires |weights| == TypeCount && row < |colors| && 0 <= colors[row] <= TypeCount && column <= columns && |pop.placed| == TypeCount
    ensures forall b :: b in PopulateRow(mode, weights, columns, colors, row, column, pop, draws).spawned <==>
              b in pop.spawned || RowRule(mode, weights, columns, colors, row, column, pop.cursor, draws, b)
    decreases columns - column
  {
    if column < columns {
      var next := PopulateShelf(mode, weights, colors, row, column, pop, draws);
      RowSpawns(mode, weights, columns, colors, row, column + 1, next, draws);
      forall b: Box
        ensures b in next.spawned || RowRule(mode, weights, columns, colors, row, column + 1, next.cursor, draws, b) <==>
                  b in pop.spawned || RowRule(mode, weights, columns, colors, row, column, pop.cursor, draws, b)
      {
        ShelfSpawnsStep(mode, weights, columns, colors, row, column, pop, draws, b);
      }
      assert PopulateRow(mode, weights, columns, colors, row, column, pop, draws) == PopulateRow(mode, weights, columns, colors, row, column + 1, next, draws);
    }
  }

  /** Whether box `b` lies on a shelf of row `row` from column `column` on
      that the shelf rule fills with it, the row's shelves reading draws from
      `cursor` on, one shelf after the other. */
  predicate RowRule(mode: JobType, weights: seq<real>, columns: nat, colors: seq<int>, row: nat, column: nat, cursor: nat, draws: Stream, b: Box)
    requires |weights| == TypeCount && row < |colors| && 0 <= colors[row] <= TypeCount
  {
    && b.row == row && column <= b.column < columns
    && ShelfRule(mode, weights, colors[row], cursor + RowDraws(b.column - column, ShelfDraws(mode, colors[row])), draws, b)
  }

  /** One shelf of a row walk, for one box: the box is instantiated by the
      shelf or by the shelves after it exactly when the row rule admits it. */
  lemma ShelfSpawnsStep(mode: JobType, weights: seq<real>, columns: nat, colors: seq<int>, row: nat, column: nat, pop: Population, draws: Stream, b: Box)
    requires |weights| == TypeCount && row < |colors| && 0 <= colors[row] <= TypeCount && column < columns && |pop.placed| == TypeCount
    ensures var next := PopulateShelf(mode, weights, colors, row, column, pop, draws);
            b in next.spawned || RowRule(mode, weights, columns, colors, row, column + 1, next.cursor, draws, b) <==>
              b in pop.spawned || RowRule(mode, weights, columns, colors, row, column, pop.cursor, draws, b)
  {
    var per := ShelfDraws(mode, colors[row]);
    var added := ShelfBoxes(mode, weights, colors[row], row, column, pop.cursor, draws);
    ShelfBoxCharacterized(mode, weights, colors[row], row, column, pop.cursor, draws, b);
    assert b in pop.spawned + added <==> b in pop.spawned || b in added;
    if column < b.column {
      assert RowDraws(b.column - column, per) == per + RowDraws(b.column - (column + 1), per);
    }
  }

  /** Draws the population walk takes over rows `row..`: fixed by the mode,
      the column count and the zone map, whatever the draws are. */
  function GridDraws(mode: JobType, columns: nat, colors: seq<int>, row: nat): nat
    requires row <= |colors|
    decreases |colors| - row
  {
    if row == |colors| then 0
    else RowDraws(columns, ShelfDraws(mode, colors[row])) + GridDraws(mode, columns, colors, row + 1)
  }

  /** The population walk over rows `row..`, row by row. */
  function PopulateGrid(mode: JobType, weights: seq<real>, columns: nat, colors: seq<int>, row: nat, pop: Population, draws: Stream): (r: Population)
    requires |weights| == TypeCount && row <= |colors| && |pop.placed| == TypeCount
    requires forall y :: 0 <= y < |colors| ==> 0 <= colors[y] <= TypeCount
    ensures |r.placed| == TypeCount
    ensures r.cursor == pop.cursor + GridDraws(mode, columns, colors, row)
    ensures pop.cursor <= r.cursor
    decreases |colors| - row
  {
    if row == |colors| then pop
    else
      var next := PopulateRow(mode, weights, columns, colors, row, 0, pop, draws);
      PopulateGrid(mode, weights, columns, colors, row + 1, next, draws)
  }

  /** The grid walk keeps every invariant that each of its rows keeps. */
  lemma {:induction false} GridPreserves(inv: Population -> bool, mode: JobType, weights: seq<real>, columns: nat, colors: seq<int>, row: nat, pop: Population, draws: Stream)
    requires |weights| == TypeCount && row <= |colors| && |pop.placed| == TypeCount
    requires forall y :: 0 <= y < |colors| ==> 0 <= colors[y] <= TypeCount
    requires inv(pop)
    requires forall y: nat, p: Population :: row <= y < |colors| && |p.placed| == TypeCount && inv(p) ==>
               inv(PopulateRow(mode, weights, columns, colors, y, 0, p, draws))
    ensures inv(PopulateGrid(mode, weights, columns, colors, row, pop, draws))
    decreases |colors| - row
  {
    if row < |colors| {
      var next := PopulateRow(mode, weights, columns, colors, row, 0, pop, draws);
      assert inv(next);
      GridPreserves(inv, mode, weights, columns, colors, row + 1, next, draws);
      assert PopulateGrid(mode, weights, columns, colors, row, pop, draws) == PopulateGrid(mode, weights, columns, colors, row + 1, next, draws);
    }
  }

  /** The whole walk keeps the population consistent. */
  lemma GridKeepsConsistent(mode: JobType, weights: seq<real>, columns: nat, colors: seq<int>, row: nat, pop: Population, draws: Stream)
    requires |weights| == TypeCount && row <= |colors|
    requires forall y :: 0 <= y < |colors| ==> 0 <= colors[y] <= TypeCount
    requires Consistent(mode, columns, colors, pop.spawned, pop.placed)
    ensures var r := PopulateGrid(mode, weights, columns, colors, row, pop, draws);
              Consistent(mode, columns, colors, r.spawned, r.placed)
  {
    var inv := (p: Population) => Consistent(mode, columns, colors, p.spawned, p.placed);
    forall y: nat, p: Population | row <= y < |colors| && |p.placed| == TypeCount && inv(p)
      ensures inv(PopulateRow(mode, weights, columns, colors, y, 0, p, draws))
    {
      RowKeepsConsistent(mode, weights, columns, colors, y, 0, p, draws);
    }
    GridPreserves(inv, mode, weights, columns, colors, row, pop, draws);
  }

  /** Draws the rows `lo..hi` take, row by row. */
  function DrawsBetween(mode: JobType, columns: nat, colors: seq<int>, lo: nat, hi: nat): nat
    requires lo <= hi <= |colors|
    decreases hi - lo
  {
    if lo == hi then 0
    else RowDraws(columns, ShelfDraws(mode, colors[lo])) + DrawsBetween(mode, columns, colors, lo + 1, hi)
  }

  /** Where the draws of the shelf at (`y`, `x`) start in a walk from row 0:
      after every shelf of the rows above and of the columns before it. */
  function ShelfCursor(mode: JobType, columns: nat, colors: seq<int>, y: nat, x: nat): nat
    requires y < |colors|
  {
    DrawsBetween(mode, columns, colors, 0, y) + RowDraws(x, ShelfDraws(mode, colors[y]))
  }

  /** Whether box `b` lies on a shelf of rows `row..` that the shelf rule
      fills with it, the rows reading draws from `cursor` on, one after the
      other. */
  predicate GridRule(mode: JobType, weights: seq<real>, columns: nat, colors: seq<int>, row: nat, cursor: nat, draws: Stream, b: Box)
    requires |weights| == TypeCount && row <= |colors|
    requires forall y :: 0 <= y < |colors| ==> 0 <= colors[y] <= TypeCount
  {
    && row <= b.row < |colors|
    && RowRule(mode, weights, columns, colors, b.row, 0, cursor + DrawsBetween(mode, columns, colors, row, b.row), draws, b)
  }

  /** The boxes a grid walk from row `row` on instantiates: those it started
      with, and on the later rows exactly the boxes the shelf rule admits at
      each shelf's place in the draws. */
  lemma {:induction false} GridSpawns(mode: JobType, weights: seq<real>, columns: nat, colors: seq<int>, row: nat, pop: Population, draws: Stream)
    requires |weights| == TypeCount && row <= |colors| && |pop.placed| == TypeCount
    requires forall y :: 0 <= y < |colors| ==> 0 <= colors[y] <= TypeCount
    ensures forall b :: b in PopulateGrid(mode, weights, columns, colors, row, pop, draws).spawned <==>
              b in pop.spawned || GridRule(mode, weights, columns, colors, row, pop.cursor, draws, b)
    decreases |colors| - row
  {
    if row < |colors| {
      var next := PopulateRow(mode, weights, columns, colors, row, 0, pop, draws);
      RowSpawns(mode, weights, columns, colors, row, 0, pop, draws);
      GridSpawns(mode, weights, columns, colors, row + 1, next, draws);
      forall b: Box
        ensures b in next.spawned || GridRule(mode, weights, columns, colors, row + 1, next.cursor, draws, b) <==>
                  b in pop.spawned || GridRule(mode, weights, columns, colors, row, pop.cursor, draws, b)
      {
        RowSpawnsStep(mode, weights, columns, colors, row, pop, next, draws, b);
      }
      assert PopulateGrid(mode, weights, columns, colors, row, pop, draws) == PopulateGrid(mode, weights, columns, colors, row + 1, next, draws);
    }
  }

  /** A whole grid walk from an empty population, for one box: the box is
      instantiated exactly when it lies on the grid and the shelf rule admits
      it at its own shelf's place in the draws. */
  lemma InitialGridSpawns(mode: JobType, weights: seq<real>, columns: nat, colors: seq<int>, draws: Stream, b: Box)
    requires |weights| == TypeCount
    requires forall y :: 0 <= y < |colors| ==> 0 <= colors[y] <= TypeCount
    ensures b in PopulateGrid(mode, weights, columns, colors, 0, Population([], seq(TypeCount, _ => []), 0), draws).spawned <==>
              && b.row < |colors| && b.column < columns
              && ShelfRule(mode, weights, colors[b.row], ShelfCursor(mode, columns, colors, b.row, b.column), draws, b)
  {
    var empty := Population([], seq(TypeCount, _ => []), 0);
    GridSpawns(mode, weights, columns, colors, 0, empty, draws);
    GridRuleFromStart(mode, weights, columns, colors, draws, b);
    assert b !in empty.spawned;
  }

  /** The grid rule from the first row and the first draw, for one box:
      the box lies on the grid and the shelf rule admits it at its shelf's
      cursor. */
  lemma GridRuleFromStart(mode: JobType, weights: seq<real>, columns: nat, colors: seq<int>, draws: Stream, b: Box)
    requires |weights| == TypeCount
    requires forall y :: 0 <= y < |colors| ==> 0 <= colors[y] <= TypeCount
    ensures GridRule(mode, weights, columns, colors, 0, 0, draws, b) <==>
              && b.row < |colors| && b.column < columns
              && ShelfRule(mode, weights, colors[b.row], ShelfCursor(mode, columns, colors, b.row, b.column), draws, b)
  {
    if b.row < |colors| {
      var cursor := DrawsBetween(mode, columns, colors, 0, b.row);
      assert GridRule(mode, weights, columns, colors, 0, 0, draws, b) == RowRule(mode, weights, columns, colors, b.row, 0, cursor, draws, b);
      assert ShelfCursor(mode, columns, colors, b.row, b.column) == cursor + RowDraws(b.column, ShelfDraws(mode, colors[b.row]));
    }
  }

  /** One row of a grid walk, for one box: the box is instantiated by the
      row or by the rows after it exactly when the grid rule admits it. */
  lemma RowSpawnsStep(mode: JobType, weights: seq<real>, columns: nat, colors: seq<int>, row: nat, pop: Population, next: Population, draws: Stream, b: Box)
    requires |weights| == TypeCount && row < |colors|
    requires forall y :: 0 <= y < |colors| ==> 0 <= colors[y] <= TypeCount
    requires next.cursor == pop.cursor + RowDraws(columns, ShelfDraws(mode, colors[row]))
    requires b in next.spawned <==> b in pop.spawned || RowRule(mode, weights, columns, colors, row, 0, pop.cursor, draws, b)
    ensures b in next.spawned || GridRule(mode, weights, columns, colors, row + 1, next.cursor, draws, b) <==>
              b in pop.spawned || GridRule(mode, weights, columns, colors, row, pop.cursor, draws, b)
  {
    if row < b.row < |colors| {
      assert DrawsBetween(mode, columns, colors, row, b.row) ==
             RowDraws(columns, ShelfDraws(mode, colors[row])) + DrawsBetween(mode, columns, colors, row + 1, b.row);
    }
  }

  /** One shelf only appends: to the instantiated boxes and to the per-type
      lists. */
  lemma ShelfAppends(mode: JobType, weights: seq<real>, colors: seq<int>, row: nat, column: nat, pop: Population, draws: Stream)
    requires |weights| == TypeCount && row < |colors| && 0 <= colors[row] <= TypeCount && |pop.placed| == TypeCount
    ensures Grows(pop, PopulateShelf(mode, weights, colors, row, column, pop, draws))
  {
    var added := ShelfBoxes(mode, weights, colors[row], row, column, pop.cursor, draws);
    RecordGrows(mode, colors[row], pop, added, pop.cursor + ShelfDraws(mode, colors[row]));
  }

  /** Recording a shelf's boxes as the mode does grows the population. */
  lemma RecordGrows(mode: JobType, color: int, pop: Population, added: seq<Box>, cursor: nat)
    requires 0 <= color <= TypeCount && |pop.placed| == TypeCount
    ensures Grows(pop, Population(pop.spawned + added, Record(mode, color, pop.placed, added), cursor))
  {
    var placed := Record(mode, color, pop.placed, added);
    forall t | 0 <= t < |pop.placed|
      ensures pop.placed[t] <= placed[t]
    {
      if mode == Fetching && color != 0 && t == color - 1 {
        assert placed[t] == pop.placed[t] + added;
      }
    }
  }

  /** A row only appends. */
  lemma {:induction false} RowAppends(mode: JobType, weights: seq<real>, columns: nat, colors: seq<int>, row: nat, column: nat, pop: Population, draws: Stream)
    requires |weights| == TypeCount && row < |colors| && 0 <= colors[row] <= TypeCount && column <= columns && |pop.placed| == TypeCount
    ensures Grows(pop, PopulateRow(mode, weights, columns, colors, row, column, pop, draws))
    decreases columns - column
  {
    if column < columns {
      var next := PopulateShelf(mode, weights, colors, row, column, pop, draws);
      ShelfAppends(mode, weights, colors, row, column, pop, draws);
      RowAppends(mode, weights, columns, colors, row, column + 1, next, draws);
      GrowsTransitive(pop, next, PopulateRow(mode, weights, columns, colors, row, column + 1, next, draws));
    }
  }

  /** The whole walk only appends: every box of an earlier population, and
      every entry of its per-type lists, stays where it was. */
  lemma {:induction false} GridAppends(mode: JobType, weights: seq<real>, columns: nat, colors: seq<int>, row: nat, pop: Population, draws: Stream)
    requires |weights| == TypeCount && row <= |colors| && |pop.placed| == TypeCount
    requires forall y :: 0 <= y < |colors| ==> 0 <= colors[y] <= TypeCount
    ensures Grows(pop, PopulateGrid(mode, weights, columns, colors, row, pop, draws))
    decreases |colors| - row
  {
    if row < |colors| {
      var next := PopulateRow(mode, weights, columns, colors, row, 0, pop, draws);
      RowAppends(mode, weights, columns, colors, row, 0, pop, draws);
      GridAppends(mode, weights, columns, colors, row + 1, next, draws);
      GrowsTransitive(pop, next, PopulateGrid(mode, weights, columns, colors, row + 1, next, draws));
    }
  }

  /** The boxes of `s` whose type value is `t`, in the order of `s`. */
  function OfType(s: seq<Box>, t: nat): (r: seq<Box>)
    ensures forall b :: b in r <==> b in s && TypeValue(b.kind) == t
    decreases |s|
  {
    if s == [] then []
    else (if TypeValue(s[0].kind) == t then [s[0]] else []) + OfType(s[1..], t)
  }

  lemma {:induction false} OfTypeAppend(a: seq<Box>, b: seq<Box>, t: nat)
    ensures OfType(a + b, t) == OfType(a, t) + OfType(b, t)
    decreases |a|
  {
    if a != [] {
      OfTypeAppend(a[1..], b, t);
      assert (a + b)[1..] == a[1..] + b;
    } else {
      assert a + b == b;
    }
  }

  lemma {:induction false} OfTypeAll(s: seq<Box>, t: nat)
    requires forall b :: b in s ==> TypeValue(b.kind) == t
    ensures OfType(s, t) == s
    decreases |s|
  {
    if s != [] {
      assert s[0] in s;
      OfTypeAll(s[1..], t);
    }
  }

  lemma {:induction false} OfTypeNone(s: seq<Box>, t: nat)
    requires forall b :: b in s ==> TypeValue(b.kind) != t
    ensures OfType(s, t) == []
    decreases |s|
  {
    if s != [] {
      assert s[0] in s;
      OfTypeNone(s[1..], t);
    }
  }

  /** Fetch mode's per-type lists in order: list `t` holds the instantiated
      boxes of type `t`, in the order they were instantiated. */
  predicate Recorded(spawned: seq<Box>, placed: seq<seq<Box>>) {
    && |placed| == TypeCount
    && forall t :: 0 <= t < TypeCount ==> placed[t] == OfType(spawned, t)
  }

  /** In fetch mode one shelf keeps the per-type lists in order. */
  lemma ShelfKeepsRecorded(weights: seq<real>, colors: seq<int>, row: nat, column: nat, pop: Population, draws: Stream)
    requires |weights| == TypeCount && row < |colors| && 0 <= colors[row] <= TypeCount
    requires Recorded(pop.spawned, pop.placed)
    ensures var r := PopulateShelf(Fetching, weights, colors, row, column, pop, draws);
              Recorded(r.spawned, r.placed)
  {
    var color := colors[row];
    var added := ShelfBoxes(Fetching, weights, color, row, column, pop.cursor, draws);
    var r := PopulateShelf(Fetching, weights, colors, row, column, pop, draws);
    if color == 0 {
      assert r.spawned == pop.spawned + [] == pop.spawned;
    } else {
      ShelfBoxesOnShelf(Fetching, weights, color, row, column, pop.cursor, draws);
      forall t | 0 <= t < TypeCount
        ensures r.placed[t] == OfType(r.spawned, t)
      {
        OfTypeAppend(pop.spawned, added, t);
        if t == color - 1 {
          OfTypeAll(added, t);
        } else {
          OfTypeNone(added, t);
        }
      }
    }
  }

  /** In fetch mode the whole walk keeps the per-type lists in order. */
  lemma GridKeepsRecorded(weights: seq<real>, columns: nat, colors: seq<int>, row: nat, pop: Population, draws: Stream)
    requires |weights| == TypeCount && row <= |colors|
    requires forall y :: 0 <= y < |colors| ==> 0 <= colors[y] <= TypeCount
    requires Recorded(pop.spawned, pop.placed)
    ensures var r := PopulateGrid(Fetching, weights, columns, colors, row, pop, draws);
              Recorded(r.spawned, r.placed)
  {
    var inv := (p: Population) => Recorded(p.spawned, p.placed);
    forall y: nat, p: Population | row <= y < |colors| && |p.placed| == TypeCount && inv(p)
      ensures inv(PopulateRow(Fetching, weights, columns, colors, y, 0, p, draws))
    {
      forall c: nat, q: Population | 0 <= c < columns && |q.placed| == TypeCount && inv(q)
        ensures inv(PopulateShelf(Fetching, weights, colors, y, c, q, draws))
      {
        ShelfKeepsRecorded(weights, colors, y, c, q, draws);
      }
      RowPreserves(inv, Fetching, weights, columns, colors, y, 0, p, draws);
    }
    GridPreserves(inv, Fetching, weights, columns, colors, row, pop, draws);
  }

  // ------------------------------------------------------- job selection

  /** `a` is an order-preserving subsequence of `b`. */
  predicate IsSubsequence<T(==)>(a: seq<T>, b: seq<T>) {
    SubsequenceFrom(a, b, 0, 0)
  }

  /** `a[i..]` is an order-preserving subsequence of `b[j..]`: either `a[i..]`
      is used up, or `b[j]` matches `a[i]` and the rest follows, or `b[j]` is
      skipped. */
  predicate SubsequenceFrom<T(==)>(a: seq<T>, b: seq<T>, i: nat, j: nat)
    requires i <= |a| && j <= |b|
    decreases |b| - j
  {
    if i == |a| then true
    else if j == |b| then false
    else (a[i] == b[j] && SubsequenceFrom(a, b, i + 1, j + 1)) || SubsequenceFrom(a, b, i, j + 1)
  }

  /** Matching against `b` without its first element is matching against
      `b` one position further on. */
  lemma {:induction false} SubsequenceFromTail<T>(a: seq<T>, b: seq<T>, i: nat, j: nat)
    requires b != [] && i <= |a| && j < |b|
    ensures SubsequenceFrom(a, b[1..], i, j) <==> SubsequenceFrom(a, b, i, j + 1)
    decreases |b| - j, |a| - i
  {
    if i < |a| && j < |b| - 1 {
      assert b[1..][j] == b[j + 1];
      SubsequenceFromTail(a, b, i + 1, j + 1);
      SubsequenceFromTail(a, b, i, j + 1);
    }
  }

  /** Putting `x` in front of `a` shifts every position of `a` by one. */
  lemma {:induction false} SubsequenceFromCons<T>(x: T, a: seq<T>, b: seq<T>, i: nat, j: nat)
    requires i <= |a| && j <= |b|
    ensures SubsequenceFrom([x] + a, b, i + 1, j) <==> SubsequenceFrom(a, b, i, j)
    decreases |b| - j, |a| - i
  {
    if i < |a| && j < |b| {
      assert ([x] + a)[i + 1] == a[i];
      SubsequenceFromCons(x, a, b, i + 1, j + 1);
      SubsequenceFromCons(x, a, b, i, j + 1);
    }
  }

  /** The fetch-mode job filter: `Mathf.FloorToInt(Random.value * 100) < searchPercent`. */
  predicate Accepts(u: Draw, percent: int) {
    (u * 100.0).Floor < percent
  }

  /** `list.Where(...)` over one placed list: one draw per box in list order;
      the job keeps, in order, exactly the boxes whose draw is accepted. */
  function KeepFilter(boxes: seq<Box>, percent: int, cursor: nat, draws: Stream): (r: (seq<Box>, nat))
    ensures r.1 == cursor + |boxes|
    ensures IsSubsequence(r.0, boxes)
    ensures forall b :: b in r.0 <==>
              exists j :: 0 <= j < |boxes| && boxes[j] == b && Accepts(draws(cursor + j), percent)
    decreases |boxes|
  {
    if boxes == [] then ([], cursor)
    else
      var rest := KeepFilter(boxes[1..], percent, cursor + 1, draws);
      forall b | b in rest.0
        ensures exists j :: 0 <= j < |boxes| && boxes[j] == b && Accepts(draws(cursor + j), percent)
      {
        var j :| 0 <= j < |boxes[1..]| && boxes[1..][j] == b && Accepts(draws(cursor + 1 + j), percent);
        assert boxes[j + 1] == b;
      }
      forall b, j | 0 <= j < |boxes| && boxes[j] == b && Accepts(draws(cursor + j), percent) && j > 0
        ensures b in rest.0
      {
        assert boxes[1..][j - 1] == b;
      }
      SubsequenceFromTail(rest.0, boxes, 0, 0);
      SubsequenceFromCons(boxes[0], rest.0, boxes, 0, 1);
      if Accepts(draws(cursor), percent) then
        ([boxes[0]] + rest.0, rest.1)
      else
        rest
  }

  /** Sum of the lengths of the lists in `lists`. */
  function TotalLength<T>(lists: seq<seq<T>>): nat {
    if lists == [] then 0 else |lists[0]| + TotalLength(lists[1..])
  }

  /** The job loop over every placed list in order, threading the draws: job
      list `i` is the filter of placed list `i` reading its draws after those
      of the lists before it, one draw per placed box. */
  function SelectJobs(placed: seq<seq<Box>>, percent: int, cursor: nat, draws: Stream): (r: (seq<seq<Box>>, nat))
    ensures |r.0| == |placed|
    ensures forall i :: 0 <= i < |placed| ==> IsSubsequence(r.0[i], placed[i])
    ensures r.1 == cursor + TotalLength(placed)
    decreases |placed|
  {
    if placed == [] then ([], cursor)
    else
      var first := KeepFilter(placed[0], percent, cursor, draws);
      var rest := SelectJobs(placed[1..], percent, first.1, draws);
      assert forall i :: 1 <= i < |placed| ==> placed[1..][i - 1] == placed[i];
      ([first.0] + rest.0, rest.1)
  }

  /** Job list `i` is exactly the filter of placed list `i`, reading its
      draws after those of every placed list before it. */
  lemma {:induction false} SelectJobsFilters(placed: seq<seq<Box>>, percent: int, cursor: nat, draws: Stream, i: nat, start: nat)
    requires i < |placed| && start == cursor + TotalLength(placed[..i])
    ensures SelectJobs(placed, percent, cursor, draws).0[i] == KeepFilter(placed[i], percent, start, draws).0
    decreases |placed|
  {
    if i == 0 {
      SelectJobsFirst(placed, percent, cursor, draws);
      assert placed[..0] == [];
    } else {
      SelectJobsRest(placed, percent, cursor, draws, i);
      TotalLengthOfPrefix(placed, i);
      SelectJobsFilters(placed[1..], percent, cursor + |placed[0]|, draws, i - 1, start);
    }
  }

  /** The same, for a job list already computed: entry `i` of the job loop's
      result is the filter of placed list `i` at its own cursor. */
  lemma JobOfList(placed: seq<seq<Box>>, percent: int, cursor: nat, draws: Stream, jobs: seq<seq<Box>>, i: nat)
    requires i < |placed| && jobs == SelectJobs(placed, percent, cursor, draws).0
    ensures jobs[i] == KeepFilter(placed[i], percent, cursor + TotalLength(placed[..i]), draws).0
  {
    SelectJobsFilters(placed, percent, cursor, draws, i, cursor + TotalLength(placed[..i]));
  }

  /** The lists before list `i` are the first list and the lists before
      list `i - 1` of the rest. */
  lemma TotalLengthOfPrefix<T>(lists: seq<seq<T>>, i: nat)
    requires 0 < i <= |lists|
    ensures TotalLength(lists[..i]) == |lists[0]| + TotalLength(lists[1..][..i - 1])
  {
    assert lists[..i][1..] == lists[1..][..i - 1];
  }

  /** The job loop filters the first placed list from the cursor on. */
  lemma SelectJobsFirst(placed: seq<seq<Box>>, percent: int, cursor: nat, draws: Stream)
    requires placed != []
    ensures SelectJobs(placed, percent, cursor, draws).0[0] == KeepFilter(placed[0], percent, cursor, draws).0
  {
  }

  /** After the first placed list the job loop goes on with the rest, from
      where the first list's draws end. */
  lemma SelectJobsRest(placed: seq<seq<Box>>, percent: int, cursor: nat, draws: Stream, i: nat)
    requires 0 < i < |placed|
    ensures SelectJobs(placed, percent, cursor, draws).0[i] ==
            SelectJobs(placed[1..], percent, cursor + |placed[0]|, draws).0[i - 1]
    ensures placed[1..][i - 1] == placed[i]
  {
  }

  // ------------------------------------------------------------ the room

  /** `GenerateRoom`. A negative row count fails at `new int[shelfRows]`
      (`None`); any other configuration builds a room. */
  function GenerateRoom(cfg: Config, draws: Stream): (r: Option<Room>)
    requires WellFormed(cfg)
    ensures r.Some? <==> cfg.shelfRows >= 0
    ensures r.Some? ==> r.value == BuildRoom(cfg, draws)
  {
    if cfg.shelfRows < 0 then None else Some(BuildRoom(cfg, draws))
  }

  /** The room a non-negative row count builds: the zone map, the shelf grid
      in visiting order, the boxes under the mode rule, and in fetch mode one
      subsequence of each placed list as the job; sort mode's job stays
      empty. Every per-type list starts empty, so nothing of an earlier call
      survives. */
  function BuildRoom(cfg: Config, draws: Stream): (r: Room)
    requires WellFormed(cfg) && cfg.shelfRows >= 0
    ensures |r.colors| == cfg.shelfRows
    ensures forall y :: 0 <= y < cfg.shelfRows ==>
              r.colors[y] == ZoneOfRow(cfg.zoneSizes, y) && 0 <= r.colors[y] <= TypeCount
    ensures (r.zoneWarning <==> Boundary(cfg.zoneSizes, |cfg.zoneSizes|) > cfg.shelfRows)
    ensures |r.shelves| == cfg.shelfRows
    ensures forall y :: 0 <= y < cfg.shelfRows ==> |r.shelves[y]| == Columns(cfg)
    ensures forall y, x :: 0 <= y < cfg.shelfRows && 0 <= x < Columns(cfg) ==>
              r.shelves[y][x] == ShelfAt(r.colors, Columns(cfg), y, x)
    ensures Consistent(cfg.jobType, Columns(cfg), r.colors, r.spawned, r.placed)
    ensures |r.jobs| == TypeCount
    ensures forall t :: 0 <= t < TypeCount ==> IsSubsequence(r.jobs[t], r.placed[t])
    ensures cfg.jobType == Sorting ==> forall t :: 0 <= t < TypeCount ==> r.jobs[t] == []
  {
    var zones := AssignZones(cfg.shelfRows, cfg.zoneSizes);
    var colors := zones.colors;
    ColorsInRange(cfg.shelfRows, cfg.zoneSizes);
    var columns := Columns(cfg);
    var empty := Population([], seq(TypeCount, _ => []), 0);
    EmptyConsistent(cfg.jobType, columns, colors);
    GridShelvesIndexed(colors, columns);
    GridKeepsConsistent(cfg.jobType, cfg.boxWeights, columns, colors, 0, empty, draws);
    var pop := PopulateGrid(cfg.jobType, cfg.boxWeights, columns, colors, 0, empty, draws);
    var jobs :=
      if cfg.jobType == Fetching then SelectJobs(pop.placed, cfg.searchPercent, pop.cursor, draws)
      else (seq(TypeCount, _ => []), pop.cursor);
    Room(colors, zones.overflow, GridShelves(colors, columns, 0), pop.spawned, pop.placed, jobs.0, jobs.1)
  }

  /** A room's parts, named: the zone map's colours, and the boxes and lists
      of the population walk from an empty population, whose per-type lists
      the fetch-mode job loop then filters. */
  lemma RoomParts(cfg: Config, draws: Stream)
    requires WellFormed(cfg) && cfg.shelfRows >= 0
    ensures forall y :: 0 <= y < |AssignZones(cfg.shelfRows, cfg.zoneSizes).colors| ==>
              0 <= AssignZones(cfg.shelfRows, cfg.zoneSizes).colors[y] <= TypeCount
    ensures var colors := AssignZones(cfg.shelfRows, cfg.zoneSizes).colors;
            var pop := PopulateGrid(cfg.jobType, cfg.boxWeights, Columns(cfg), colors, 0, Population([], seq(TypeCount, _ => []), 0), draws);
            var room := GenerateRoom(cfg, draws).value;
            && room.colors == colors && room.spawned == pop.spawned && room.placed == pop.placed
            && (cfg.jobType == Fetching ==> room.jobs == SelectJobs(pop.placed, cfg.searchPercent, pop.cursor, draws).0)
  {
    ColorsInRange(cfg.shelfRows, cfg.zoneSizes);
  }

  /** Fetch mode's job loop, in the room's own terms: it filters the room's
      per-type lists, starting at the first draw after the grid's. */
  lemma RoomJobList(cfg: Config, draws: Stream, room: Room)
    requires WellFormed(cfg) && cfg.jobType == Fetching && GenerateRoom(cfg, draws) == Some(room)
    ensures room.jobs == SelectJobs(room.placed, cfg.searchPercent, GridDraws(Fetching, Columns(cfg), room.colors, 0), draws).0
  {
    RoomParts(cfg, draws);
  }
}
