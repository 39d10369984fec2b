/** The template dropdown of the main menu: six fixed presets, in pairs of
    one fetch and one sort variant of the same warehouse. */
module Templates {
  import opened Wrappers
  import opened Boxes
  import opened Settings
  import opened ZoneMap
  import opened Generator
  import opened GeneratorProperties
  import opened ZoneEditor

  /** Number of presets in the dropdown. */
  const PresetCount: nat := 6

  /** `SetTemplate`: writes every field of preset `index` except the two
      derived spacings, which keep their earlier values; any other index
      throws `ArgumentOutOfRangeException` (`None`). */
  function SetTemplate(c: Config, index: int): (r: Option<Config>)
    ensures r.Some? <==> 0 <= index < PresetCount
    ensures r.Some? ==> WellFormed(r.value)
    ensures r.Some? ==> r.value.distanceBetweenShelves == c.distanceBetweenShelves
    ensures r.Some? ==> r.value.distanceToWall == c.distanceToWall
  {
    match index
    case 0 => Some(c.(seed := -1, jobType := Fetching, searchPercent := 50,
                      timeLimit := [0.0, 15.0, 0.0], buildingX := 24.0, buildingY := 44.0,
                      shelfColumns := 2, shelfRows := 4,
                      boxTypes := [true, true, false, false],
                      boxWeights := [0.5, 0.5, 0.0, 0.0],
                      zoneSizes := [2, 1, 1, 0, 0]))
    case 1 => Some(c.(seed := -1, jobType := Sorting, searchPercent := 100,
                      timeLimit := [0.0, 15.0, 0.0], buildingX := 24.0, buildingY := 44.0,
                      shelfColumns := 2, shelfRows := 4,
                      boxTypes := [true, true, false, false],
                      boxWeights := [0.25, 0.25, 0.0, 0.0],
                      zoneSizes := [2, 1, 1, 0, 0]))
    case 2 => Some(c.(seed := -1, jobType := Fetching, searchPercent := 50,
                      timeLimit := [0.0, 30.0, 0.0], buildingX := 24.0, buildingY := 60.0,
                      shelfColumns := 2, shelfRows := 6,
                      boxTypes := [true, true, true, true],
                      boxWeights := [0.5, 0.5, 0.5, 0.5],
                      zoneSizes := [2, 1, 1, 1, 1]))
    case 3 => Some(c.(seed := -1, jobType := Sorting, searchPercent := 100,
                      timeLimit := [0.0, 30.0, 0.0], buildingX := 24.0, buildingY := 60.0,
                      shelfColumns := 2, shelfRows := 6,
                      boxTypes := [true, true, true, true],
                      boxWeights := [0.25, 0.25, 0.25, 0.25],
                      zoneSizes := [2, 1, 1, 1, 1]))
    case 4 => Some(c.(seed := -1, jobType := Fetching, searchPercent := 50,
                      timeLimit := [0.0, 45.0, 0.0], buildingX := 32.0, buildingY := 60.0,
                      shelfColumns := 4, shelfRows := 6,
                      boxTypes := [true, true, true, true],
                      boxWeights := [0.5, 0.5, 0.5, 0.5],
                      zoneSizes := [2, 1, 1, 1, 1]))
    case 5 => Some(c.(seed := -1, jobType := Sorting, searchPercent := 100,
                      timeLimit := [0.0, 45.0, 0.0], buildingX := 32.0, buildingY := 60.0,
                      shelfColumns := 4, shelfRows := 6,
                      boxTypes := [true, true, true, true],
                      boxWeights := [0.25, 0.25, 0.25, 0.25],
                      zoneSizes := [2, 1, 1, 1, 1]))
    case _ => None
  }

  /** What every preset shares: a fresh random seed; fetch at 50% on even
      indices and sort at 100% on odd ones; and values inside the ranges the
      menu's own fields accept. */
  lemma PresetInvariants(c: Config, index: int)
    requires 0 <= index < PresetCount
    ensures var p := SetTemplate(c, index).value;
            && p.seed == -1
            && (index % 2 == 0 ==> p.jobType == Fetching && p.searchPercent == 50)
            && (index % 2 == 1 ==> p.jobType == Sorting && p.searchPercent == 100)
            && 20 <= p.searchPercent <= 100
            && (forall k :: 0 <= k < 3 ==> 0.0 <= p.timeLimit[k] <= 60.0)
            && 8.0 <= p.buildingX <= 100.0 && 8.0 <= p.buildingY <= 100.0
            && 1 <= p.shelfColumns <= 100 && 1 <= p.shelfRows <= 100
            && (forall t :: 0 <= t < TypeCount ==> 0.0 <= p.boxWeights[t] <= 1.0)
            && (forall z :: 0 <= z <= TypeCount ==> 0 <= p.zoneSizes[z] <= 999)
  {
  }

  /** Every preset's zones add up to its row count, both as the inspector
      sums them and as the generator lays them out, and a disabled type has
      neither a weight nor a zone. */
  lemma PresetZonesAddUp(c: Config, index: int)
    requires 0 <= index < PresetCount
    ensures var p := SetTemplate(c, index).value;
            && Boundary(p.zoneSizes, |p.zoneSizes|) == p.shelfRows
            && ZoneSum(p) == p.shelfRows
            && ZonesTidy(p)
            && (forall t :: 0 <= t < TypeCount && !p.boxTypes[t] ==> p.boxWeights[t] == 0.0)
  {
    var p := SetTemplate(c, index).value;
    if index < 2 {
      assert p.zoneSizes == [2, 1, 1, 0, 0] && p.shelfRows == 4;
      assert ZoneSum(p) == 4;
    } else {
      assert p.zoneSizes == [2, 1, 1, 1, 1] && p.shelfRows == 6;
      assert ZoneSum(p) == 6;
    }
  }

  /** Presets `2k` and `2k + 1` describe the same warehouse: they differ
      only in the job type, the percentage and the weights. */
  lemma PresetPairsShareWarehouse(c: Config, k: int)
    requires 0 <= k < PresetCount / 2
    ensures var f := SetTemplate(c, 2 * k).value;
            var s := SetTemplate(c, 2 * k + 1).value;
            s == f.(jobType := s.jobType, searchPercent := s.searchPercent, boxWeights := s.boxWeights)
  {
  }

  /** The inspector's zone report on the presets: the fetch presets with
      all four types enabled (indices 2 and 4) have a mixed zone of two rows
      for four job types, so they get the fetch-mode warning; every other
      preset gets "all looks fine". */
  lemma PresetReports(c: Config, index: int)
    requires 0 <= index < PresetCount
    ensures index == 2 || index == 4 ==> CalculateZones(SetTemplate(c, index).value) == [MixedZoneTooSmall]
    ensures index != 2 && index != 4 ==> CalculateZones(SetTemplate(c, index).value) == [AllFine]
  {
    var p := SetTemplate(c, index).value;
    if index < 2 {
      assert EnabledCount(p) == 2 && ZoneSum(p) == 4;
    } else {
      assert EnabledCount(p) == 4 && ZoneSum(p) == 6;
    }
  }

  /** The first preset end to end: four rows coloured mixed, mixed, blue,
      green; no zone warning; and, whatever the draws, no yellow or red box
      is ever placed. */
  lemma FirstPresetRoom(c: Config, draws: Stream)
    ensures var room := GenerateRoom(SetTemplate(c, 0).value, draws).value;
            && room.colors == [0, 0, 1, 2]
            && !room.zoneWarning
            && room.placed[2] == [] && room.placed[3] == []
  {
    var p := SetTemplate(c, 0).value;
    var room := GenerateRoom(p, draws).value;
    var sizes := p.zoneSizes;
    assert Boundary(sizes, 1) == 2 && Boundary(sizes, 2) == 3 && Boundary(sizes, 3) == 4;
    assert ZoneOfRow(sizes, 0) == 0 && ZoneOfRow(sizes, 1) == 0;
    assert ZoneOfRow(sizes, 2) == 1;
    assert ZoneOfRow(sizes, 3) == 2;
    assert room.colors == [0, 0, 1, 2];
    ZoneWithoutRowsGetsNoBoxes(p, draws, 2);
    ZoneWithoutRowsGetsNoBoxes(p, draws, 3);
  }
}
