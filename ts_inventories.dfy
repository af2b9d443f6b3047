/**
 * The inventories read model of the TypeScript port (`projectInventories`): productId to the
 * inventory of the latest InventoryChanged event for that product.
 */
module TsInventories {
  import opened Wrappers
  import opened TsEvents
  import opened LastWrite

  /** What an event writes into the inventories record: only InventoryChanged writes. */
  function InventoryWrite(e: Event): Option<(string, int)> {
    if e.InventoryChanged? then Some((e.productId, e.inventory)) else None
  }

  function InventoriesView(events: seq<Event>): map<string, int> {
    Replay(events, InventoryWrite)
  }

  method ProjectInventories(events: seq<Event>) returns (inventories: map<string, int>)
    ensures inventories == InventoriesView(events)
  {
    inventories := map[];
    for i := 0 to |events|
      invariant inventories == InventoriesView(events[..i])
    {
      assert events[..i + 1] == events[..i] + [events[i]];
      ReplaySnoc(events[..i], events[i], InventoryWrite);
      if events[i].InventoryChanged? {
        inventories := inventories[events[i].productId := events[i].inventory];
      }
    }
    assert events[..|events|] == events;
  }

  lemma InventoriesEmpty()
    ensures InventoriesView([]) == map[]
  {
  }

  /** The keys are exactly the productIds that occur in InventoryChanged events. */
  lemma InventoriesKeys(events: seq<Event>, p: string)
    ensures p in InventoriesView(events)
      <==> exists k | 0 <= k < |events| :: events[k].InventoryChanged? && events[k].productId == p
  {
    ReplayKeys(events, InventoryWrite, p);
    if p in InventoriesView(events) {
      var k :| 0 <= k < |events| && Writes(InventoryWrite, events[k], p);
      assert events[k].InventoryChanged? && events[k].productId == p;
    }
    if k :| 0 <= k < |events| && events[k].InventoryChanged? && events[k].productId == p {
      assert Writes(InventoryWrite, events[k], p);
    }
  }

  /** The inventory of a product is the one of its last InventoryChanged event. */
  lemma InventoriesLastWins(events: seq<Event>, k: nat)
    requires k < |events| && events[k].InventoryChanged?
    requires forall j | k < j < |events| :: !(events[j].InventoryChanged? && events[j].productId == events[k].productId)
    ensures events[k].productId in InventoriesView(events)
    ensures InventoriesView(events)[events[k].productId] == events[k].inventory
  {
    forall j | k < j < |events| ensures !Writes(InventoryWrite, events[j], events[k].productId) {
    }
    ReplayLastWins(events, InventoryWrite, k);
  }

  /** Events other than InventoryChanged do not affect the view, wherever they occur. */
  lemma InventoriesIgnoreOthers(a: seq<Event>, e: Event, b: seq<Event>)
    requires !e.InventoryChanged?
    ensures InventoriesView(a + [e] + b) == InventoriesView(a + b)
  {
    ReplayIgnores(a, e, b, InventoryWrite);
  }
}
