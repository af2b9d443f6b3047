/**
 * The consistency-key table of the TypeScript port's event store: for each event type, the
 * named keys whose values are read from the event's data and that define the consistency
 * boundaries (a `cart` key for a cart's events, a `product` key for pricing and inventory).
 */
module TsConsistency {
  import opened Wrappers
  import opened TsEvents

  datatype KeyRule = KeyRule(name: string, path: string)

  /** A key extracted from an event: its name and the value found at its path. */
  datatype Key = Key(name: string, value: string)

  const CartKey: KeyRule := KeyRule("cart", "data.cartId")
  const ProductKey: KeyRule := KeyRule("product", "data.productId")

  /** The table, event type to key rules; ItemQuantityChanged has no entry. */
  const Consistency: map<string, seq<KeyRule>> := map[
    "CartCreated" := [CartKey],
    "ItemAdded" := [CartKey, ProductKey],
    "ItemRemoved" := [CartKey],
    "ItemArchived" := [CartKey],
    "CartSubmitted" := [CartKey],
    "CartCleared" := [CartKey],
    "CartPublished" := [CartKey],
    "CartPublicationFailed" := [CartKey],
    "InventoryChanged" := [ProductKey],
    "PriceChanged" := [ProductKey]
  ]

  /** The value found at a path of the event's data, `None` when the data has no such field. */
  function Resolve(path: string, e: Event): (r: Option<string>)
    ensures path == "data.cartId" ==> (r.Some? <==> !(e.InventoryChanged? || e.PriceChanged?))
    ensures path == "data.productId" ==> (r.Some? <==> e.ItemAdded? || e.InventoryChanged? || e.PriceChanged?)
    ensures path != "data.cartId" && path != "data.productId" ==> r.None?
  {
    if path == "data.cartId" then
      if e.InventoryChanged? || e.PriceChanged? then None else Some(e.cartId)
    else if path == "data.productId" then
      if e.ItemAdded? || e.InventoryChanged? || e.PriceChanged? then Some(e.productId) else None
    else None
  }

  function RulesOf(e: Event): seq<KeyRule> {
    if TypeName(e) in Consistency then Consistency[TypeName(e)] else []
  }

  /** The keys of an event: each rule of its type whose path resolves, in table order. */
  function Extract(rules: seq<KeyRule>, e: Event): seq<Key>
    decreases |rules|
  {
    if rules == [] then []
    else
      var rest := Extract(rules[1..], e);
      match Resolve(rules[0].path, e)
      case Some(v) => [Key(rules[0].name, v)] + rest
      case None => rest
  }

  function KeysOf(e: Event): seq<Key> {
    Extract(RulesOf(e), e)
  }

  lemma PathsDiffer()
    ensures CartKey.path != ProductKey.path
  {
    assert CartKey.path[5] != ProductKey.path[5];
  }

  lemma ExtractSingle(rule: KeyRule, e: Event)
    ensures Extract([rule], e) == match Resolve(rule.path, e) case Some(v) => [Key(rule.name, v)] case None => []
  {
    assert [rule][1..] == [];
  }

  /** ItemAdded carries its cart key and its product key. */
  lemma ItemAddedKeys(e: Event)
    requires e.ItemAdded?
    ensures KeysOf(e) == [Key("cart", e.cartId), Key("product", e.productId)]
  {
    PathsDiffer();
    assert RulesOf(e) == [CartKey, ProductKey];
    assert RulesOf(e)[1..] == [ProductKey];
    ExtractSingle(ProductKey, e);
  }

  /** InventoryChanged and PriceChanged carry only their product key. */
  lemma ProductEventKeys(e: Event)
    requires e.InventoryChanged? || e.PriceChanged?
    ensures KeysOf(e) == [Key("product", e.productId)]
  {
    PathsDiffer();
    assert RulesOf(e) == [ProductKey];
    ExtractSingle(ProductKey, e);
  }

  /** Every other event of the table carries exactly its cart key. */
  lemma CartEventKeys(e: Event)
    requires e.CartCreated? || e.ItemRemoved? || e.ItemArchived? || e.CartSubmitted?
      || e.CartCleared? || e.CartPublished? || e.CartPublicationFailed?
    ensures KeysOf(e) == [Key("cart", e.cartId)]
  {
    PathsDiffer();
    assert RulesOf(e) == [CartKey];
    ExtractSingle(CartKey, e);
  }

  /** ItemQuantityChanged is not in the table, so it carries no key at all. */
  lemma QuantityChangedHasNoKeys(e: Event)
    requires e.ItemQuantityChanged?
    ensures TypeName(e) !in Consistency && KeysOf(e) == []
  {
  }

  /** The table names every event type but ItemQuantityChanged. */
  lemma TableCoversTypes()
    ensures forall t | t in AllEventTypes :: t in Consistency <==> t != "ItemQuantityChanged"
    ensures forall t | t in Consistency :: t in AllEventTypes
  {
  }

  /** Every rule of the table reads a path that every event of its type has. */
  lemma EveryRuleResolves(e: Event, k: nat)
    requires k < |RulesOf(e)|
    ensures Resolve(RulesOf(e)[k].path, e).Some?
  {
  }
}
