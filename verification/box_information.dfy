/** `BoxInformation.OnTriggerEnter`: what a box tells the shelf zone it
    enters. The zone's reaction to each alert is not part of this model. */
module BoxInformation {
  import opened Wrappers
  import opened Boxes
  import opened Settings
  import opened Generator

  /** The shelf zone callback a trigger raises, if any. */
  datatype Alert = NoAlert | AlertSame | AlertMixed | AlertWrong

  /** A box of type `box` enters a trigger on layer `otherLayer` that
      carries the zone `zone`. Only the shelf layer raises an alert; then
      the box's own zone gives `AlertSame`, the mixed zone `AlertMixed`, and
      any other zone `AlertWrong`. */
  function OnTriggerEnter(otherLayer: int, shelfLayer: int, zone: Zones, box: Types): (a: Alert)
    ensures a == NoAlert <==> otherLayer != shelfLayer
    ensures a == AlertSame <==> otherLayer == shelfLayer && ZoneValue(zone) - 1 == TypeValue(box)
    ensures a == AlertMixed <==> otherLayer == shelfLayer && zone == Mixed
    ensures a == AlertWrong <==> otherLayer == shelfLayer && zone != Mixed && ZoneValue(zone) - 1 != TypeValue(box)
  {
    if otherLayer != shelfLayer then NoAlert
    else if ZoneValue(zone) - 1 == TypeValue(box) then AlertSame
    else if zone == Mixed then AlertMixed
    else AlertWrong
  }

  /** The value test agrees with the zone of the box's type: `AlertSame`
      exactly in `ZoneOfType(box)`, `AlertWrong` exactly in the other
      coloured zones; the mixed zone matches no type. */
  lemma SameMeansOwnZone(layer: int, zone: Zones, box: Types)
    ensures OnTriggerEnter(layer, layer, zone, box) == AlertSame <==> zone == ZoneOfType(box)
    ensures OnTriggerEnter(layer, layer, zone, box) == AlertWrong <==> zone != Mixed && zone != ZoneOfType(box)
    ensures OnTriggerEnter(layer, layer, Mixed, box) == AlertMixed
  {
    ZoneValuesOffsetTypes(zone);
    if zone != Mixed && ZoneValue(zone) - 1 == TypeValue(box) {
      TypeValuesAreTheTypeRange();
      assert TypeOfValue(ZoneValue(zone) - 1) == Some(box);
    }
  }

  /** Every box the generator instantiates sits on a shelf whose zone says
      it is already home in fetch mode, and mixed in sort mode. */
  lemma GeneratedBoxesStartSorted(cfg: Config, draws: Stream, layer: int)
    requires WellFormed(cfg) && cfg.shelfRows >= 0
    ensures var room := GenerateRoom(cfg, draws).value;
            forall b :: b in room.spawned ==>
              OnTriggerEnter(layer, layer, room.shelves[b.row][b.column].zone, b.kind)
                == if cfg.jobType == Fetching then AlertSame else AlertMixed
  {
    var room := GenerateRoom(cfg, draws).value;
    forall b | b in room.spawned
      ensures OnTriggerEnter(layer, layer, room.shelves[b.row][b.column].zone, b.kind)
                == if cfg.jobType == Fetching then AlertSame else AlertMixed
    {
      var zone := room.shelves[b.row][b.column].zone;
      assert zone == ShelfZone(room.colors[b.row]);
      SameMeansOwnZone(layer, zone, b.kind);
      if cfg.jobType == Fetching {
        assert ZoneValue(zone) == TypeValue(b.kind) + 1;
      }
    }
  }
}
