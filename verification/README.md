# Warehouse simulator core, modelled in Dafny

This project models the deterministic core of a Unity forklift warehouse simulator. It covers:

- **Room generation** (`WarehouseGenerator.GenerateRoom`). This has three parts:
  - the zone map, which gives each row of shelves a zone (mixed, blue, green, yellow or red);
  - the shelf grid, with the floor end markers and the zone each shelf takes;
  - box population and job selection. Fetch mode fills each coloured row with boxes of its own type. Sort mode fills the mixed rows with random types and records nothing. Fetch mode then picks the job boxes with a per-box filter.
- **Configuration:**
  - the main menu's parse-or-default-then-clamp setters and the derived spacings;
  - the inspector's zone diagnostic and its disabled-type rules;
  - the six preset templates.
- **Zone entry:** the classification a box performs when it enters a shelf zone, and the enum relations it relies on.
- **HUD round:** the round's end, the five score terms, the difficulty modifier and the one high-score record a round appends.
- **Leaderboard view:** sort ascending, reverse, take the first ten.

Unity's random generator after `Random.InitState` is an explicit stream of draws (`Generator.Stream`, `nat -> Draw`, where a draw is a real in [0, 1]). The model threads a cursor through it in the order the source takes `Random.value`. Floats are `real`. Input parsing (`int.TryParse`, `float.TryParse`) is an `Option` argument to each setter.

The source comes from mixed revisions: the menu and the templates write static fields, while the generator and the inspector use instance fields. The model merges them into one `Settings.Config` record and one two-valued `Settings.JobType` (sorting 0, fetching 1).

Modules, in dependency order: `Wrappers`, `Numeric`, `Boxes`, `Settings`, `ZoneMap`, `Generator`, `GeneratorProperties`, `BoxInformation`, `ZoneEditor`, `Leaderboard`, `Scoring`, `MainMenu`, `Templates`.

## Model

| member | source | states |
|---|---|---|
| Boxes.TypeValue | Assets/Scripts/BoxTypes.cs:11-17 | every box type's value is below `TypeCount` |
| Boxes.TypeOfValue | Assets/Scripts/BoxTypes.cs:11-17 | an integer names a box type exactly when it is in 0..3, and that type's value is the integer |
| Boxes.TypeValuesAreTheTypeRange | Assets/Scripts/BoxTypes.cs:8-17 | the four types are exactly the values 0..`TypeCount`-1: converting a type's value back gives the type, and distinct types have distinct values |
| Boxes.ZoneValue | Assets/Scripts/BoxTypes.cs:19-26 | zone values lie in 0..4, and 0 is exactly the mixed zone |
| Boxes.ZoneOfType | Assets/Scripts/BoxTypes.cs:19-26 | a type's own zone is never mixed and its value is the type's value plus one |
| Boxes.ZoneOfValue | Assets/Scripts/BoxTypes.cs:19-26 | an integer names a zone exactly when it is in 0..4, and that zone's value is the integer |
| Boxes.ZoneValuesOffsetTypes | Assets/Scripts/BoxTypes.cs:19-26 | mixed is the zone of value 0; every other zone is the own zone of the type whose value is one less |
| Boxes.TypeName | Assets/Scripts/BoxTypes.cs:30-40 | a name exists exactly for the values 0..3; any other value is the thrown `ArgumentOutOfRangeException` (`None`) |
| Boxes.TypeNameInjective | Assets/Scripts/BoxTypes.cs:30-40 | two values with the same name are the same value |
| BoxInformation.OnTriggerEnter | Assets/Scripts/BoxInformation.cs:23-35 | exactly one outcome for every input: none off the shelf layer, otherwise same when zone value minus one equals the type, mixed on a mixed zone, wrong on any other coloured zone |
| BoxInformation.SameMeansOwnZone | Assets/Scripts/BoxInformation.cs:28-34 | on the shelf layer, "same" means the box's own zone, "wrong" means another coloured zone, and a mixed zone always gives "mixed" |
| BoxInformation.GeneratedBoxesStartSorted | Assets/Scripts/BoxInformation.cs:28-34 | every box the generator instantiates, entering the shelf it was put on, raises "same" in fetch mode and "mixed" in sort mode |
| Numeric.ClampInt | Assets/Scripts/MainMenuManager.cs:103-104 | `Mathf.Clamp` on integers: inside the bounds the value is kept, below it gives the minimum, above it the maximum |
| Numeric.ClampReal | Assets/Scripts/MainMenuManager.cs:126 | `Mathf.Clamp` on floats, with the same three cases |
| Numeric.RoundToInt | Assets/Scripts/UIManager.cs:126 | `Mathf.RoundToInt`: the result is within one half of the argument, and an exact half goes to the even neighbour |
| Settings.ShelfSpacing | Assets/Editor/WarehouseGeneratorEditor.cs:26 | `rows` one-metre rows and `rows + 1` gaps of the result fill the building's depth |
| Settings.WallDistance | Assets/Editor/WarehouseGeneratorEditor.cs:27 | the four-metre columns plus two clearances of the result fill the building's width |
| Settings.SpacingRoundTrip | Assets/Scripts/MainMenuManager.cs:170-175 | the spacing formulas invert the layout: a building built from given gaps gives those gaps back |
| ZoneMap.FirstZoneFrom | Assets/Scripts/WarehouseGenerator.cs:205-215 | the colour found for a row is 0 or a zone index from the search start on |
| ZoneMap.FillZone | Assets/Scripts/WarehouseGenerator.cs:207-212 | one zone's inner loop writes its colour to the rows `index..index+count` that exist, overflows exactly when it runs past the end, and leaves every other row unchanged |
| ZoneMap.AssignZones | Assets/Scripts/WarehouseGenerator.cs:200-220 | the whole zone loop: one colour per row, the row's colour is `ZoneOfRow`, and the warning is logged exactly when the zone sizes add up to more than the rows |
| ZoneMap.BoundaryMonotone | Assets/Scripts/WarehouseGenerator.cs:205-215 | the running zone boundaries never decrease, whatever the zone sizes |
| ZoneMap.FirstZoneWithin | Assets/Scripts/WarehouseGenerator.cs:205-215 | a row between boundaries `k` and `k+1` gets colour `k` |
| ZoneMap.FirstZonePast | Assets/Scripts/WarehouseGenerator.cs:200-215 | a row past the last boundary keeps colour 0, the mixed zone |
| ZoneMap.FindZone | Assets/Scripts/WarehouseGenerator.cs:205-215 | a row below boundary `n` lies between two consecutive boundaries below `n` |
| ZoneMap.ZoneOfRowCharacterized | Assets/Scripts/WarehouseGenerator.cs:200-215 | a row below the total lies in the zone of its colour; a row past it is mixed; a coloured row's zone is not empty |
| ZoneMap.ZoneOfRowIsLeast | Assets/Scripts/WarehouseGenerator.cs:205-215 | a row's colour is the least zone whose boundary lies above the row |
| ZoneMap.AssignFromMatchesZoneOfRow | Assets/Scripts/WarehouseGenerator.cs:203-220 | the outer loop from any zone on completes the colour table to `ZoneOfRow` and reports the overflow exactly when the sizes exceed the rows |
| Generator.RowShelves | Assets/Scripts/WarehouseGenerator.cs:227-230 | one row holds one shelf per remaining column, each at its column with its end marker and zone |
| Generator.GridShelves | Assets/Scripts/WarehouseGenerator.cs:222-293 | one shelf row per remaining grid row |
| Generator.GridShelvesIndexed | Assets/Scripts/WarehouseGenerator.cs:222-293 | the grid has `shelfRows` rows of `shelfColumns` shelves, and shelf (y, x) has row y, column x, the end marker of x and the zone of row y's colour |
| Generator.ColorsInRange | Assets/Scripts/WarehouseGenerator.cs:234-242 | with five zone sizes, every row colour is one of 0..4, so the zone switch always matches |
| Generator.EmptyConsistent | Assets/Scripts/WarehouseGenerator.cs:119-125 | the cleared per-type lists and an empty scene satisfy the population invariant |
| Generator.FetchBoxesCharacterized | Assets/Scripts/WarehouseGenerator.cs:262-275 | fetch mode puts a box of the row's type in exactly the slots whose draw the type's weight exceeds |
| Generator.FetchBoxesOnShelf | Assets/Scripts/WarehouseGenerator.cs:267-275 | every fetch-mode box has the row's type and lies on its shelf |
| Generator.SortPickRounds | Assets/Scripts/WarehouseGenerator.cs:284 | the interval table used for the sort-mode type equals `RoundToInt(u * 3)` for every draw |
| Generator.SortSlotMembers | Assets/Scripts/WarehouseGenerator.cs:282-289 | a sort-mode slot holds a box exactly when its second draw falls below the weight of the type its first draw picked |
| Generator.SortBoxesCharacterized | Assets/Scripts/WarehouseGenerator.cs:277-290 | over a whole shelf, sort mode puts a box of the picked type in exactly the slots whose two draws pass the rule |
| Generator.SortBoxesOnShelf | Assets/Scripts/WarehouseGenerator.cs:282-289 | every sort-mode box lies on its shelf |
| Generator.ShelfBoxCharacterized | Assets/Scripts/WarehouseGenerator.cs:262-290 | a box stands on a shelf exactly when it lies on that shelf and the mode's rule admits it at the shelf's draws: in fetch mode a coloured row takes its own type in the slots whose draw the type's weight exceeds; in sort mode a mixed row takes the type a slot's first draw picks when its second draw falls below that type's weight; any other row stays empty |
| Generator.PopulateShelf | Assets/Scripts/WarehouseGenerator.cs:262-290 | the scene grows by exactly that shelf's boxes, and the per-type lists record them as the mode does (appended to their type's list in fetch mode, nowhere in sort mode); the shelf takes 12 draws on a coloured fetch row, 24 on a mixed sort row and none otherwise |
| Generator.ShelfBoxesOnShelf | Assets/Scripts/WarehouseGenerator.cs:262-290 | every box of a shelf lies on it, in a row its mode allows: its own zone in fetch mode, a mixed row in sort mode |
| Generator.AddKeepsConsistent | Assets/Scripts/WarehouseGenerator.cs:262-290 | adding one shelf's boxes and recording them the way the mode does keeps the population invariant |
| Generator.FetchShelfConsistent | Assets/Scripts/WarehouseGenerator.cs:271-274 | appending a fetch shelf's boxes to their type's list keeps the invariant, including "every instantiated box is recorded" |
| Generator.SortShelfConsistent | Assets/Scripts/WarehouseGenerator.cs:282-289 | sort-mode boxes are instantiated but recorded nowhere, and every per-type list stays empty |
| Generator.ShelfKeepsConsistent | Assets/Scripts/WarehouseGenerator.cs:262-290 | one shelf keeps the population invariant |
| Generator.PopulateRow | Assets/Scripts/WarehouseGenerator.cs:228-291 | a row takes the same number of draws for each of its shelves, whatever the draws are |
| Generator.RowSpawns | Assets/Scripts/WarehouseGenerator.cs:228-291 | after the walk over a row's columns from `column` on, a box is in the scene exactly when it was before or it lies in one of those columns and the shelf rule admits it at that shelf's place in the draws |
| Generator.RowPreserves | Assets/Scripts/WarehouseGenerator.cs:228-291 | a row walk keeps every invariant that each of its shelves keeps |
| Generator.RowKeepsConsistent | Assets/Scripts/WarehouseGenerator.cs:228-291 | a row keeps the population invariant |
| Generator.PopulateGrid | Assets/Scripts/WarehouseGenerator.cs:224-294 | the grid walk takes a number of draws fixed by the mode, the columns and the zone map |
| Generator.GridSpawns | Assets/Scripts/WarehouseGenerator.cs:224-294 | after the walk over rows `row..`, a box is in the scene exactly when it was before or it lies on one of those rows and the shelf rule admits it at its shelf's place in the draws |
| Generator.InitialGridSpawns | Assets/Scripts/WarehouseGenerator.cs:224-294 | from an empty scene, a box is instantiated exactly when it lies on the grid and the shelf rule admits it at its shelf's cursor, the draws of every shelf visited before it |
| Generator.GridPreserves | Assets/Scripts/WarehouseGenerator.cs:224-294 | the grid walk keeps every invariant that each of its rows keeps |
| Generator.GridKeepsConsistent | Assets/Scripts/WarehouseGenerator.cs:224-294 | the whole walk keeps the population invariant |
| Generator.ShelfKeepsRecorded | Assets/Scripts/WarehouseGenerator.cs:271-274 | in fetch mode one shelf keeps every per-type list equal to the scene's boxes of that type, in the order they were instantiated |
| Generator.GridKeepsRecorded | Assets/Scripts/WarehouseGenerator.cs:224-294 | in fetch mode the whole walk keeps every per-type list equal to the scene's boxes of that type, in instantiation order |
| Generator.ShelfAppends | Assets/Scripts/WarehouseGenerator.cs:271-274 | a shelf only appends, to the scene and to the per-type lists |
| Generator.RecordGrows | Assets/Scripts/WarehouseGenerator.cs:274 | recording a shelf's boxes only appends to one per-type list |
| Generator.RowAppends | Assets/Scripts/WarehouseGenerator.cs:228-291 | a row only appends |
| Generator.GridAppends | Assets/Scripts/WarehouseGenerator.cs:224-294 | the whole walk only appends: every earlier box and list entry stays where it was |
| Generator.KeepFilter | Assets/Scripts/WarehouseGenerator.cs:304-308 | one draw per box; the job keeps an order-preserving subsequence of exactly the boxes whose draw `floor(100u) < searchPercent` accepts |
| Generator.SelectJobs | Assets/Scripts/WarehouseGenerator.cs:300-310 | one job list per placed list, each a subsequence of its placed list, with one draw per placed box |
| Generator.SelectJobsFilters | Assets/Scripts/WarehouseGenerator.cs:302-309 | job list `i` is exactly the filter of placed list `i`, reading the draws that follow those of placed lists 0..i-1 |
| Generator.RoomJobList | Assets/Scripts/WarehouseGenerator.cs:300-310 | in fetch mode the room's jobs are the job loop over the room's own per-type lists, its draws starting right after the grid's |
| Generator.GenerateRoom | Assets/Scripts/WarehouseGenerator.cs:111-317 | fails (`None`) exactly on a negative row count, at `new int[shelfRows]`; any other configuration gives a room |
| Generator.BuildRoom | Assets/Scripts/WarehouseGenerator.cs:111-317 | one colour per row as the zone map gives it; the warning exactly on over-allocation; a `rows` by `columns` grid of the right shelves; the population invariant; jobs that are subsequences of the placed lists, and empty jobs in sort mode |
| GeneratorProperties.FetchBoxesLocal | Assets/Scripts/WarehouseGenerator.cs:267-275 | a fetch shelf depends only on its own twelve draws |
| GeneratorProperties.SortBoxesLocal | Assets/Scripts/WarehouseGenerator.cs:282-289 | a sort shelf depends only on its own twenty-four draws |
| GeneratorProperties.ShelfBoxesLocal | Assets/Scripts/WarehouseGenerator.cs:262-290 | a shelf's boxes depend only on the draws it takes |
| GeneratorProperties.PopulateShelfLocal | Assets/Scripts/WarehouseGenerator.cs:262-290 | one population step depends only on the draws it takes |
| GeneratorProperties.PopulateRowLocal | Assets/Scripts/WarehouseGenerator.cs:228-291 | a row depends only on the draws it takes |
| GeneratorProperties.PopulateGridLocal | Assets/Scripts/WarehouseGenerator.cs:224-294 | the whole population depends only on the draws it takes |
| GeneratorProperties.KeepFilterLocal | Assets/Scripts/WarehouseGenerator.cs:304-308 | one job filter depends only on its own draws |
| GeneratorProperties.SelectJobsLocal | Assets/Scripts/WarehouseGenerator.cs:300-310 | job selection depends only on the draws it takes |
| GeneratorProperties.GenerateRoomDependsOnlyOnConsumedDraws | Assets/Scripts/WarehouseGenerator.cs:111-317 | reproducibility: two streams that agree on the draws a room consumes give the same room |
| GeneratorProperties.GenerateRoomIgnoresUnreadFields | Assets/Scripts/WarehouseGenerator.cs:262-290 | the room does not depend on the enable flags, the seed or the two stored spacings |
| GeneratorProperties.RoomBoxes | Assets/Scripts/WarehouseGenerator.cs:222-294 | which boxes a room holds: box `b` is in the scene exactly when its shelf is on the grid and the shelf rule admits it, reading the draws from where that shelf's draws start |
| GeneratorProperties.FetchRoomLists | Assets/Scripts/WarehouseGenerator.cs:262-275 | in fetch mode per-type list `t` holds exactly the room's boxes of type `t`, in instantiation order |
| GeneratorProperties.FetchRoomJob | Assets/Scripts/WarehouseGenerator.cs:300-309 | in fetch mode job `t` is exactly the filter of per-type list `t`, reading the draws after the grid's and after those of lists 0..t-1 |
| GeneratorProperties.ZoneWithoutRowsGetsNoBoxes | Assets/Scripts/WarehouseGenerator.cs:262-275 | a type whose zone has no rows has an empty placed list in either mode, and in fetch mode no box of it is instantiated |
| GeneratorProperties.NoBoxesOfEmptyZone | Assets/Scripts/WarehouseGenerator.cs:262-275 | in fetch mode no row has the colour of an empty zone, so none of that type's boxes exists |
| GeneratorProperties.JobsArePlaced | Assets/Scripts/WarehouseGenerator.cs:300-310 | every job box is one of the placed boxes of its type |
| GeneratorProperties.AcceptsBounds | Assets/Scripts/WarehouseGenerator.cs:305 | a percentage above 100 keeps every box, one of 0 or less keeps none, and 100 keeps all draws except exactly 1 |
| GeneratorProperties.EndMarkersOfARow | Assets/Scripts/WarehouseGenerator.cs:230 | the marker is -1 exactly on the first column, +1 exactly on a last column that is not also the first, and 0 between |
| ZoneEditor.TallyZones | Assets/Editor/WarehouseGeneratorEditor.cs:90-99 | the loop counts the enabled types and adds the mixed size to the enabled types' zone sizes |
| ZoneEditor.Report | Assets/Editor/WarehouseGeneratorEditor.cs:101-122 | each message appears exactly when its condition holds; "all looks fine" appears exactly when it is the only one; messages appear in the source's order |
| ZoneEditor.CalculateZones | Assets/Editor/WarehouseGeneratorEditor.cs:88-123 | the same on a configuration: "no zones" exactly when no type is enabled, over-allocation, under-use, and the mode's warning |
| ZoneEditor.RowLinesExclusive | Assets/Editor/WarehouseGeneratorEditor.cs:104-108 | the over-allocation error and the under-use warning never appear together, and neither appears exactly when the sum equals the rows |
| ZoneEditor.InspectorPass | Assets/Editor/WarehouseGeneratorEditor.cs:24-78 | one inspector pass: the spacings are recomputed; with the types foldout open a disabled type's weight becomes 0; with the zones foldout open its zone becomes 0; nothing else changes |
| ZoneEditor.EnabledSizesAreBoundary | Assets/Editor/WarehouseGeneratorEditor.cs:92-99 | once disabled zones are 0, the inspector's sum is the generator's last zone boundary |
| ZoneEditor.FineReportCoversRows | Assets/Editor/WarehouseGeneratorEditor.cs:119-120 | with tidy zones, "all looks fine" means the zones exactly cover the rows, so the generator logs no warning |
| ZoneEditor.ZonePassTidies | Assets/Editor/WarehouseGeneratorEditor.cs:64-71 | an inspector pass with the zones foldout open leaves the zone sizes tidy |
| Leaderboard.Insert | Assets/Scripts/MainMenuManager.cs:57 | inserting into an ascending list keeps it ascending and adds exactly the one entry |
| Leaderboard.ConsAscending | Assets/Scripts/MainMenuManager.cs:57 | an entry no larger than an ascending list's head can go in front |
| Leaderboard.SortByPoints | Assets/Scripts/MainMenuManager.cs:57 | the sort gives an ascending permutation of the scores |
| Leaderboard.Reverse | Assets/Scripts/MainMenuManager.cs:58 | position i of the result holds position n-1-i of the input |
| Leaderboard.ReverseOfAscending | Assets/Scripts/MainMenuManager.cs:57-58 | reversing an ascending list gives a descending permutation of it |
| Leaderboard.ReverseKeepsEntries | Assets/Scripts/MainMenuManager.cs:58 | reversing keeps every entry and its multiplicity |
| Leaderboard.HighscoreView | Assets/Scripts/MainMenuManager.cs:56-60 | the first min(10, n) entries: descending, taken from the saved scores, and no entry left out outranks one shown |
| Leaderboard.PrefixOfDescending | Assets/Scripts/MainMenuManager.cs:59-60 | taking a prefix of a descending list keeps it descending, and nothing left out outranks what was taken |
| Leaderboard.ViewFromSaved | Assets/Scripts/MainMenuManager.cs:56-60 | every entry shown is a saved score |
| Leaderboard.HighscoreButton | Assets/Scripts/MainMenuManager.cs:54-62 | the name and points columns have the same length, at most 10; line `i` of both columns is entry `i` of `HighscoreView`, so each line is one saved score; the points never increase down the column |
| Leaderboard.BestScoreShownFirst | Assets/Scripts/MainMenuManager.cs:56-60 | the top line of the view has the best points saved |
| Leaderboard.HeadOfView | Assets/Scripts/MainMenuManager.cs:59-60 | the head of a descending view that outranks everything left out is the overall best |
| Scoring.BoxCount | Assets/Scripts/UIManager.cs:52-56 | the job boxes' count, or 1 when there are none, so never 0 |
| Scoring.TimeLimitRange | Assets/Scripts/UIManager.cs:60-62 | with menu-clamped fields the limit is between 0 and 219660 seconds, and 0 exactly when all three fields are 0 |
| Scoring.BoxScore | Assets/Scripts/UIManager.cs:93 | never negative, and 0 exactly when no box is placed |
| Scoring.IncorrectScore | Assets/Scripts/UIManager.cs:95 | never positive, and 0 exactly when nothing is misplaced |
| Scoring.TripScore | Assets/Scripts/UIManager.cs:96 | 10 for no driving, at most 10 for any distance, and non-negative exactly up to 100 m per box |
| Scoring.TripScoreMonotone | Assets/Scripts/UIManager.cs:96 | driving further never scores more |
| Scoring.TimeScoreAsWritten | Assets/Scripts/UIManager.cs:94 | the formula as written has a value exactly when the limit is not 0 |
| Scoring.TimeScore | Assets/Scripts/UIManager.cs:94 | the corrected time term: equal to the formula as written for every non-zero limit, non-negative while within the limit, and 0 at the limit or with nothing placed |
| Scoring.CancelLimit | Assets/Scripts/UIManager.cs:94 | for a non-zero limit the limit cancels out of the written formula |
| Scoring.DifficultyModifier | Assets/Scripts/UIManager.cs:97 | at most 1 + boxCount/10, equal to it exactly when the limit is at most 15 minutes, and reduced by the excess in units of 15 minutes |
| Scoring.Terms | Assets/Scripts/UIManager.cs:93-97 | the five terms keep their bounds together: box non-negative, incorrect non-positive, trip at most 10, time non-negative within the limit, modifier bounded |
| Scoring.Points | Assets/Scripts/UIManager.cs:126 | the saved points are within one half of (box + time + incorrect + trip) times the modifier |
| Scoring.WorkedExample | Assets/Scripts/UIManager.cs:93-109 | 15 minutes, half used, 5 of 5 boxes, nothing misplaced, no driving: terms 500, 500, 0, 10, modifier 1.5, score 1515 |
| Scoring.LongLimitNegativeModifier | Assets/Scripts/UIManager.cs:97 | the 45-minute preset gives a limit of 2700 s and a modifier of boxCount/10 - 1, which is negative for fewer than ten job boxes |
| Scoring.LateStart | Assets/Scripts/UIManager.cs:52-62 | the round starts with the start time kept, the job boxes added to the count, the count set to 1 exactly when that sum is 0, and the limit in seconds |
| Scoring.Update | Assets/Scripts/UIManager.cs:65-127 | nothing happens before the start. The first frame takes the start time. The round is over exactly when the time is used up or every box is placed; in that frame exactly one record (name, points) is appended and the round stops; in other frames nothing is saved |
| Scoring.Run | Assets/Scripts/UIManager.cs:65-127 | over any frames, a round adds at most one record, never alters the saved ones, and is stopped once it has added its record |
| Scoring.SortRoundEndsOnTime | Assets/Scripts/UIManager.cs:52-56 | a sort-mode room leaves the job empty, so the count is 1 and only the time limit ends the round |
| Scoring.ZeroLimitScore | Assets/Scripts/UIManager.cs:94 | a zero limit typed into the menu: the written time term has no value, the corrected one does, and the round ends on the first frame |
| MainMenu.IntInput | Assets/Scripts/MainMenuManager.cs:152-154 | an unparsable integer field gives the default; a parsed one is clamped to the bounds |
| MainMenu.RealInput | Assets/Scripts/MainMenuManager.cs:124-126 | an unparsable float field gives the default; a parsed one is clamped to the bounds |
| MainMenu.InputsSettle | Assets/Scripts/MainMenuManager.cs:122-128 | typing a setter's own result back in changes nothing |
| MainMenu.SeedSet | Assets/Scripts/MainMenuManager.cs:90-94 | the parsed seed, or -1 when the text does not parse; nothing else changes |
| MainMenu.JobTypeSet | Assets/Scripts/MainMenuManager.cs:96-99 | fetch mode exactly for dropdown value 1; nothing else changes |
| MainMenu.RequirementSet | Assets/Scripts/MainMenuManager.cs:101-105 | the percentage is clamped to 20..100, and 50 when the text does not parse; nothing else changes |
| MainMenu.TimeLimitSet | Assets/Scripts/MainMenuManager.cs:122-128 | the chosen field is clamped to 0..60 or set to its default, and the other two fields are kept |
| MainMenu.HoursSet | Assets/Scripts/MainMenuManager.cs:107-110 | hours: default 0, clamped to 0..60, minutes and seconds kept |
| MainMenu.MinuteSet | Assets/Scripts/MainMenuManager.cs:112-115 | minutes: default 15, clamped to 0..60, hours and seconds kept |
| MainMenu.SecondSet | Assets/Scripts/MainMenuManager.cs:117-120 | seconds: default 0, clamped to 0..60, hours and minutes kept |
| MainMenu.CalculateDistance | Assets/Scripts/MainMenuManager.cs:170-175 | the two spacings are brought up to date with the size and the counts, and nothing else changes |
| MainMenu.SetWarehouseX | Assets/Scripts/MainMenuManager.cs:130-138 | width is the parsed value clamped to 8..100, kept as typed inside that range, and 24 when unparsable; spacings up to date, nothing else changes |
| MainMenu.SetWarehouseY | Assets/Scripts/MainMenuManager.cs:140-148 | depth is the parsed value clamped to 8..100, kept as typed inside that range, and 44 when unparsable; spacings up to date, nothing else changes |
| MainMenu.SetShelfX | Assets/Scripts/MainMenuManager.cs:150-158 | columns is the parsed value clamped to 1..100, kept as typed inside that range, and 2 when unparsable; spacings up to date, nothing else changes |
| MainMenu.SetShelfY | Assets/Scripts/MainMenuManager.cs:160-168 | rows is the parsed value clamped to 1..100, kept as typed inside that range, and 4 when unparsable; spacings up to date, nothing else changes |
| MainMenu.SetToggle | Assets/Scripts/MainMenuManager.cs:177-195 | one type's enable flag is set; the other flags and fields are kept |
| MainMenu.SetWeight | Assets/Scripts/MainMenuManager.cs:197-227 | one type's weight is clamped to 0..1 (0.5 when unparsable); the other weights and fields are kept |
| MainMenu.SetZone | Assets/Scripts/MainMenuManager.cs:229-267 | one zone's size is clamped to 0..999 (1 when unparsable); the other sizes and fields are kept |
| MainMenu.SpacingsFollowEdits | Assets/Scripts/MainMenuManager.cs:130-175 | one pass over the four fields in the order rows, columns, depth, width: the stored spacings match the final sizes and counts, each within its field's range |
| MainMenu.ApplyEdit | Assets/Scripts/MainMenuManager.cs:130-168 | no size or count handler leaves a row count of -1 behind |
| MainMenu.EditsKeepSpacingsCurrent | Assets/Scripts/MainMenuManager.cs:130-175 | after any non-empty chain of size and count edits, in any order and with repeats, the stored spacings match the final sizes and counts |
| MainMenu.ZeroTimeLimitAccepted | Assets/Scripts/MainMenuManager.cs:107-128 | typing 0 in all three time fields stores a limit of 0:0:0 |
| Templates.SetTemplate | Assets/Scripts/TemplateManager.cs:52-132 | a preset exists exactly for indices 0..5; any other index is the thrown `ArgumentOutOfRangeException` (`None`); the spacings are left as they were |
| Templates.PresetInvariants | Assets/Scripts/TemplateManager.cs:56-127 | every preset has seed -1, fetch at 50% on even indices and sort at 100% on odd ones, and values inside the menu's ranges |
| Templates.PresetZonesAddUp | Assets/Scripts/TemplateManager.cs:56-127 | each preset's zones add up to its rows, both as the inspector sums them and as the generator lays them out; disabled types have neither weight nor zone |
| Templates.PresetPairsShareWarehouse | Assets/Scripts/TemplateManager.cs:56-127 | presets 2k and 2k+1 differ only in job type, percentage and weights |
| Templates.PresetReports | Assets/Scripts/TemplateManager.cs:80-115 | the inspector warns on the four-type fetch presets (2 and 4), whose two mixed rows are fewer than the four types, and finds every other preset fine |
| Templates.FirstPresetRoom | Assets/Scripts/TemplateManager.cs:56-67 | preset 0's room has rows mixed, mixed, blue, green and no warning, and never places a yellow or red box |

## Left out

- ROS transport, forklift physics, sensors, cameras and scene loading are not part of this model. They are plumbing, rigid-body physics or rendering.
- Walls, roofs, floor quads and the float positions of shelves and boxes (`realX`, `realY`, `_boxPositions`) are left out. They are geometry only; the model keeps the row, column and slot indices and the end marker.
- The distribution of `Random.value`, and `Random.InitState(seed)` with the seed: the generator reads an arbitrary stream of draws in [0, 1]. The nondeterminism of seed -1 is not modelled.
- High-score persistence (`HighscoreManager.Load`/`Save`, JSON) is left out. The saved scores are a plain list passed in and returned.
- Text parsing is left out; each setter takes the parse result as an `Option`.
- Display text is left out: the HUD strings, the inspector labels, the menu's spacing label and `TemplateManager.SetTextFields`.
- The zone verifier's `AlertSame`/`AlertMixed`/`AlertWrong` bodies and the misplacement counting are not part of this model. `ShelfZone.cs` holds no such logic; only the dispatch in `BoxInformation` is modelled.
- Float32 rounding, NaN and infinity are left out; all arithmetic is exact `real`.
- Settings.ShelfSpacing: requires a row count other than -1, because the float division by zero there yields infinity, which `real` cannot hold.
- MainMenu.CalculateDistance: requires a row count other than -1, for the same reason. So do the size setters that call it, except `SetShelfY`, which sets the rows first.
- The inspector's sliders and their own clamping (`IntSlider`, `Slider`) are left out. `ZoneEditor.InspectorPass` keeps the values it does not force to 0.
- MainMenu.JobTypeSet: a dropdown value other than 0 or 1 is modelled as sorting. Every consumer only tests for fetching, so an out-of-range enum behaves as sorting.
- Enum values outside the declared constants are left out. A zone or type is always one of the declared values.
- Leaderboard.SortByPoints: `List.Sort` is unstable, so the order among equal points is not modelled. The model fixes one order, and every property it states holds for any tie order.
- Generator.GenerateRoom: the shelf loop's float counters are modelled by their visit counts, `shelfRows` rows and `max(shelfColumns, 0)` columns.
- Templates.SetTemplate does not recompute the two spacings. The model keeps that behaviour and says so in its contract, rather than treating it as a defect.
- Sort mode's job selection is the source's empty `TODO` branch. Its job lists stay empty, as modelled.
- Scoring.Update: at a time limit of 0 the saved record uses the corrected time term (`Scoring.TimeScore`), where the source saves `RoundToInt(NaN)`. The as-written term and its failure are kept in `Scoring.TimeScoreAsWritten` and `Scoring.ZeroLimitScore`.
- Scoring.Terms: states the bounds of the corrected time term, so at a time limit of 0 it does not describe the source's NaN term.
- ZoneMap.AssignZones: the C# `int` sum `startIndex + zoneSize` (WarehouseGenerator.cs:208) is unbounded here. It could only wrap for zone sizes near 2^31, which neither the menu (0..999) nor the presets produce.
- Leaderboard.HighscoreButton: the source sorts and reverses the loaded list in place. The model returns the columns and leaves its argument unchanged, since every reader and writer of the list loads it afresh from the score file first (HighscoreManager.cs:25, UIManager.cs:124-126), so the reordering is never seen or saved.
- MainMenu.EditsKeepSpacingsCurrent: requires a starting row count other than -1, as `MainMenu.CalculateDistance` does, and for an empty chain spacings that are already current.

## Findings

| source | as written | input that shows it | evidently intended | confidence | as-written member | corrected member |
|---|---|---|---|---|---|---|
| Assets/Scripts/UIManager.cs:94 | `timeScore` divides `elapsed` by the time limit, so a limit of 0 makes it NaN (0/0 or x/0 times 0), and the saved score becomes `RoundToInt(NaN)` | type "0" into the hours, minutes and seconds fields of the menu; they clamp to 0 and the limit is 0 s, and the round ends on the first frame | the limit cancels out: `(limit - elapsed) / 900 * 1000 * correct / boxCount`, equal to the written formula for every non-zero limit | not executed | Scoring.TimeScoreAsWritten (with Scoring.ZeroLimitScore) | Scoring.TimeScore |
