/**
 * The inventories state view of the C# decider model (`InventoriesProjector.Project`):
 * ProductId to the inventory of the latest InventoryChanged event for that product.
 */
module CsInventories {
  import opened Wrappers
  import opened CsEvents
  import opened LastWrite

  /** What an event writes into the dictionary: only InventoryChanged writes. */
  function InventoryWrite(e: Event): Option<(Guid, int)> {
    if e.InventoryChanged? then Some((e.productId, e.inventory)) else None
  }

  function Inventories(stream: seq<Event>): map<Guid, int> {
    Replay(stream, InventoryWrite)
  }

  /** `stream.Aggregate(new Dictionary(), ...)` with `sv[ProductId] = Inventory` for InventoryChanged. */
  method Project(stream: seq<Event>) returns (sv: map<Guid, int>)
    ensures sv == Inventories(stream)
  {
    sv := map[];
    for i := 0 to |stream|
      invariant sv == Inventories(stream[..i])
    {
      assert stream[..i + 1] == stream[..i] + [stream[i]];
      ReplaySnoc(stream[..i], stream[i], InventoryWrite);
      match stream[i]
      case InventoryChanged(inventory, productId) =>
        sv := sv[productId := inventory];
      case _ =>
    }
    assert stream[..|stream|] == stream;
  }

  lemma InventoriesEmpty()
    ensures Inventories([]) == map[]
  {
  }

  /** The keys are exactly the ProductIds of the InventoryChanged events. */
  lemma InventoriesKeys(stream: seq<Event>, p: Guid)
    ensures p in Inventories(stream)
      <==> exists k | 0 <= k < |stream| :: stream[k].InventoryChanged? && stream[k].productId == p
  {
    ReplayKeys(stream, InventoryWrite, p);
    if p in Inventories(stream) {
      var k :| 0 <= k < |stream| && Writes(InventoryWrite, stream[k], p);
      assert stream[k].InventoryChanged? && stream[k].productId == p;
    }
    if k :| 0 <= k < |stream| && stream[k].InventoryChanged? && stream[k].productId == p {
      assert Writes(InventoryWrite, stream[k], p);
    }
  }

  /** A product's inventory is the one of its last InventoryChanged event. */
  lemma InventoriesLastWins(stream: seq<Event>, k: nat)
    requires k < |stream| && stream[k].InventoryChanged?
    requires forall j | k < j < |stream| :: !(stream[j].InventoryChanged? && stream[j].productId == stream[k].productId)
    ensures stream[k].productId in Inventories(stream)
    ensures Inventories(stream)[stream[k].productId] == stream[k].inventory
  {
    forall j | k < j < |stream| ensures !Writes(InventoryWrite, stream[j], stream[k].productId) {
    }
    ReplayLastWins(stream, InventoryWrite, k);
  }

  /** Events other than InventoryChanged do not change the view, wherever they occur. */
  lemma InventoriesIgnoreOthers(a: seq<Event>, e: Event, b: seq<Event>)
    requires !e.InventoryChanged?
    ensures Inventories(a + [e] + b) == Inventories(a + b)
  {
    ReplayIgnores(a, e, b, InventoryWrite);
  }

  /** Two InventoryChanged events for two products yield both inventories. */
  lemma InventoriesOfTwo(p1: Guid, n1: int, p2: Guid, n2: int)
    requires p1 != p2
    ensures Inventories([InventoryChanged(n1, p1), InventoryChanged(n2, p2)]) == map[p1 := n1, p2 := n2]
  {
    var e1, e2 := InventoryChanged(n1, p1), InventoryChanged(n2, p2);
    ReplaySnoc([e1], e2, InventoryWrite);
    ReplaySnoc([], e1, InventoryWrite);
    assert [] + [e1] == [e1];
    assert [e1] + [e2] == [e1, e2];
  }
}
