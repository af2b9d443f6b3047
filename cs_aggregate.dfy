/**
 * The mutable cart aggregate of the root project (`CartAggregate`). Its fields are changed in
 * place by `Apply`; a command checks its guards, then raises events, each of which is recorded
 * in `UncommittedEvents` before it is applied. Hydration applies a stored stream without
 * recording it. Every exception becomes an `AggError` returned by the method.
 */
module CsAggregate {
  import opened Wrappers
  import opened OrderedMap
  import opened CsEvents
  import D = CsDeciders

  datatype AggError =
    | TooManyItemsInCart(cartId: Option<Guid>, itemId: Guid)
    | ItemCanNotBeRemoved(itemId: Guid)
    | CannotSubmitEmptyCart
    | CartCannotBeSubmittedTwice
    | CannotPublishUnsubmittedCart
    | CartCannotBePublishedTwice
    /** A runtime exception: a duplicate or missing dictionary key, or `.Value` on a null id. */
    | Crashed(fault: Fault)

  datatype AddItemCommand = AddItemCommand(
    cartId: Guid, description: Option<string>, image: Option<string>,
    price: int, totalPrice: int, itemId: Guid, productId: Guid)

  datatype RemoveItemCommand = RemoveItemCommand(itemId: Guid, cartId: Guid)

  datatype ArchiveItemCommand = ArchiveItemCommand(cartId: Guid, productId: Guid)

  datatype PublishCartCommand = PublishCartCommand(cartId: Guid, orderedProducts: seq<PricedProduct>, totalPrice: int)

  /** The fields of the aggregate apart from its uncommitted events. */
  datatype AggState = AggState(
    cartId: Option<Guid>, cartItems: OMap<Guid, Guid>, productPrice: map<Guid, int>,
    isSubmitted: bool, isPublished: bool, publicationFailed: bool)

  const Initial := AggState(None, [], map[], false, false, false)

  /** Removes an item and its product's price; the indexer throws for an absent item. */
  function RetireItem(s: AggState, itemId: Guid): Result<AggState, Fault> {
    match Get(s.cartItems, itemId)
    case None => Err(KeyNotFound(itemId))
    case Some(productId) =>
      Ok(s.(productPrice := s.productPrice - {productId}, cartItems := Delete(s.cartItems, itemId)))
  }

  /** `Apply`: the `ApplyEvent` overload of the event's type, or nothing for an unmatched type. */
  function ApplySpec(s: AggState, e: Event): Result<AggState, Fault> {
    match e
    case CartCreated(cartId) => Ok(s.(cartId := Some(cartId)))
    case ItemAdded(_, _, _, price, itemId, productId) =>
      if Has(s.cartItems, itemId) then Err(DuplicateKey(itemId))
      else Ok(s.(cartItems := Set(s.cartItems, itemId, productId), productPrice := s.productPrice[productId := price]))
    case ItemRemoved(itemId, _) => RetireItem(s, itemId)
    case ItemArchived(_, itemId) => RetireItem(s, itemId)
    case CartSubmitted(_, _, _) => Ok(s.(isSubmitted := true))
    case CartCleared(_) => Ok(s.(cartItems := [], productPrice := map[]))
    case CartPublished(_) => Ok(s.(isPublished := true))
    case CartPublicationFailed(_) => Ok(s.(publicationFailed := true))
    case _ => Ok(s)
  }

  /** `Hydrate`: applies the events in order; the first exception ends it. */
  function HydrateSpec(s: AggState, stream: seq<Event>): Result<AggState, Fault>
    decreases |stream|
  {
    if stream == [] then Ok(s)
    else
      match ApplySpec(s, stream[0])
      case Err(f) => Err(f)
      case Ok(next) => HydrateSpec(next, stream[1..])
  }

  /** What a command did: the events it recorded, the fields afterwards and what it threw. */
  datatype Outcome = Outcome(raised: seq<Event>, state: AggState, error: Option<AggError>)

  /** `RaiseEvent`: records the event, then applies it; a throwing apply leaves the fields as they were. */
  function Raise(s: AggState, e: Event): Outcome {
    match ApplySpec(s, e)
    case Ok(next) => Outcome([e], next, None)
    case Err(f) => Outcome([e], s, Some(Crashed(f)))
  }

  /** Raises one more event after an outcome that threw nothing. */
  function Then(o: Outcome, e: Event): Outcome
    requires o.error.None?
  {
    var n := Raise(o.state, e);
    Outcome(o.raised + n.raised, n.state, n.error)
  }

  function Unchanged(s: AggState, error: AggError): Outcome {
    Outcome([], s, Some(error))
  }

  function AddItemSpec(s: AggState, command: AddItemCommand): Outcome {
    var created := if s.cartId.None? then Raise(s, CartCreated(command.cartId)) else Outcome([], s, None);
    if |created.state.cartItems| >= D.MaxItems then
      created.(error := Some(TooManyItemsInCart(created.state.cartId, command.itemId)))
    else
      Then(created, ItemAdded(command.cartId, command.description, command.image, command.price,
                              command.itemId, command.productId))
  }

  function RemoveItemSpec(s: AggState, command: RemoveItemCommand): Outcome {
    if !Has(s.cartItems, command.itemId) then Unchanged(s, ItemCanNotBeRemoved(command.itemId))
    else Raise(s, ItemRemoved(command.itemId, command.cartId))
  }

  /** `Clear`: `cartId.Value` throws for a cart that was never created. */
  function ClearSpec(s: AggState): Outcome {
    if s.cartId.None? then Unchanged(s, Crashed(NullValue))
    else Raise(s, CartClearedCommand(s.cartId.value))
  }

  /** `ArchiveItem`: the command's ProductId is passed as the event's ItemId. */
  function ArchiveItemSpec(s: AggState, command: ArchiveItemCommand): Outcome {
    Raise(s, ItemArchived(command.cartId, command.productId))
  }

  /**
   * `SubmitCart`: emptiness, then double submission; then `CartId.Value` and the price lookups
   * of the total can throw before anything is raised.
   */
  function SubmitCartSpec(s: AggState): Outcome {
    if |s.cartItems| == 0 then Unchanged(s, CannotSubmitEmptyCart)
    else if s.isSubmitted then Unchanged(s, CartCannotBeSubmittedTwice)
    else if s.cartId.None? then Unchanged(s, Crashed(NullValue))
    else
      match D.PricesOf(s.cartItems, s.productPrice)
      case Err(f) => Unchanged(s, Crashed(f))
      case Ok(ps) => Raise(s, CartSubmitted(s.cartId.value, ps, D.Total(ps)))
  }

  function PublishSpec(s: AggState, command: PublishCartCommand): Outcome {
    if !s.isSubmitted then Unchanged(s, CannotPublishUnsubmittedCart)
    else if s.isPublished then Unchanged(s, CartCannotBePublishedTwice)
    else Raise(s, CartPublished(command.cartId))
  }

  function PublishFailedSpec(s: AggState, command: PublishCartCommand): Outcome {
    Raise(s, CartPublicationFailed(command.cartId))
  }

  // ----- What Apply does -----

  /** ItemAdded throws for an ItemId already present (`Dictionary.Add`); otherwise it appends the item and sets the price. */
  lemma ApplyItemAdded(s: AggState, e: Event)
    requires e.ItemAdded?
    ensures ApplySpec(s, e).Err? <==> e.itemId in Keys(s.cartItems)
    ensures ApplySpec(s, e).Err? ==> ApplySpec(s, e).error == DuplicateKey(e.itemId)
    ensures ApplySpec(s, e).Ok? ==>
      ApplySpec(s, e).value == s.(cartItems := s.cartItems + [(e.itemId, e.productId)],
                                  productPrice := s.productPrice[e.productId := e.price])
  {
  }

  /** ItemRemoved and ItemArchived throw for an absent item; otherwise the item and its product's price go. */
  lemma ApplyRetires(s: AggState, e: Event)
    requires e.ItemRemoved? || e.ItemArchived?
    ensures ApplySpec(s, e).Err? <==> e.itemId !in Keys(s.cartItems)
    ensures ApplySpec(s, e).Err? ==> ApplySpec(s, e).error == KeyNotFound(e.itemId)
    ensures ApplySpec(s, e).Ok? ==>
      var n := ApplySpec(s, e).value;
      && e.itemId !in Keys(n.cartItems)
      && (forall x | x != e.itemId :: Get(n.cartItems, x) == Get(s.cartItems, x))
      && n.productPrice == s.productPrice - {Get(s.cartItems, e.itemId).value}
      && n.cartId == s.cartId && n.isSubmitted == s.isSubmitted && n.isPublished == s.isPublished
  {
  }

  /** CartCleared empties the items and the prices; CartClearedCommand is not matched and changes nothing. */
  lemma ApplyClears(s: AggState, c: Guid)
    ensures ApplySpec(s, CartCleared(c)).Ok? && |ApplySpec(s, CartCleared(c)).value.cartItems| == 0
    ensures ApplySpec(s, CartCleared(c)).value.productPrice == map[]
    ensures ApplySpec(s, CartClearedCommand(c)) == Ok(s)
  {
  }

  /** No event clears a flag once it is set. */
  lemma ApplyFlagsStick(s: AggState, e: Event)
    requires ApplySpec(s, e).Ok?
    ensures s.isSubmitted ==> ApplySpec(s, e).value.isSubmitted
    ensures s.isPublished ==> ApplySpec(s, e).value.isPublished
    ensures s.publicationFailed ==> ApplySpec(s, e).value.publicationFailed
  {
  }

  // ----- What the commands do -----

  /** AddItem on a fresh aggregate records CartCreated, then ItemAdded. */
  lemma AddItemOnFresh(command: AddItemCommand)
    ensures var o := AddItemSpec(Initial, command);
      && o.error.None?
      && o.raised == [CartCreated(command.cartId), ItemAdded(command.cartId, command.description, command.image,
                                                             command.price, command.itemId, command.productId)]
      && o.state.cartId == Some(command.cartId) && o.state.cartItems == [(command.itemId, command.productId)]
      && o.state.productPrice == map[command.productId := command.price]
  {
  }

  /**
   * At three items AddItem throws TooManyItemsInCart with the cart id it has by then, and the
   * CartCreated raised for a cart without an id stays recorded.
   */
  lemma AddItemTooMany(s: AggState, command: AddItemCommand)
    requires |s.cartItems| >= D.MaxItems
    ensures var o := AddItemSpec(s, command);
      && o.error == Some(TooManyItemsInCart(Some(if s.cartId.Some? then s.cartId.value else command.cartId), command.itemId))
      && o.raised == (if s.cartId.None? then [CartCreated(command.cartId)] else [])
      && o.state == s.(cartId := o.state.cartId)
  {
  }

  /**
   * Below three items AddItem records ItemAdded last, after a CartCreated when the cart has no
   * id; it succeeds, and the item is mapped to its product, exactly when the ItemId is new.
   */
  lemma AddItemBelowMax(s: AggState, command: AddItemCommand)
    requires |s.cartItems| < D.MaxItems
    ensures var o := AddItemSpec(s, command);
      && |o.raised| == (if s.cartId.None? then 2 else 1)
      && o.raised[|o.raised| - 1] == ItemAdded(command.cartId, command.description, command.image,
                                               command.price, command.itemId, command.productId)
      && (s.cartId.None? ==> o.raised[0] == CartCreated(command.cartId))
      && (o.error.None? <==> command.itemId !in Keys(s.cartItems))
      && (o.error.Some? ==> o.error == Some(Crashed(DuplicateKey(command.itemId))) && o.state.cartItems == s.cartItems)
      && (o.error.None? ==> Get(o.state.cartItems, command.itemId) == Some(command.productId)
                            && o.state.productPrice[command.productId] == command.price)
  {
    var created := if s.cartId.None? then Raise(s, CartCreated(command.cartId)) else Outcome([], s, None);
    assert created.state.cartItems == s.cartItems;
  }

  /** RemoveItem throws ItemCanNotBeRemoved exactly for an absent item; otherwise it records ItemRemoved. */
  lemma RemoveItemRejectsAbsent(s: AggState, command: RemoveItemCommand)
    ensures var o := RemoveItemSpec(s, command);
      && (o.error == Some(ItemCanNotBeRemoved(command.itemId)) <==> command.itemId !in Keys(s.cartItems))
      && (o.error.Some? ==> o.raised == [] && o.state == s)
      && (o.error.None? ==> o.raised == [ItemRemoved(command.itemId, command.cartId)]
                            && command.itemId !in Keys(o.state.cartItems))
  {
    if Has(s.cartItems, command.itemId) {
      ApplyRetires(s, ItemRemoved(command.itemId, command.cartId));
    }
  }

  /**
   * Clear records CartClearedCommand for the aggregate's own cart id, and since Apply does not
   * match that type, the items and prices stay; without a cart id it throws before recording.
   */
  lemma ClearKeepsItems(s: AggState)
    ensures s.cartId.Some? ==> ClearSpec(s) == Outcome([CartClearedCommand(s.cartId.value)], s, None)
    ensures s.cartId.None? ==> ClearSpec(s) == Outcome([], s, Some(Crashed(NullValue)))
  {
  }

  /**
   * ArchiveItem records ItemArchived whose ItemId is the command's ProductId; applying it throws
   * KeyNotFound unless some item has that id.
   */
  lemma ArchiveItemByProductId(s: AggState, command: ArchiveItemCommand)
    ensures var o := ArchiveItemSpec(s, command);
      && o.raised == [ItemArchived(command.cartId, command.productId)]
      && (o.error.None? <==> command.productId in Keys(s.cartItems))
      && (o.error.Some? ==> o.error == Some(Crashed(KeyNotFound(command.productId))) && o.state == s)
  {
    ApplyRetires(s, ItemArchived(command.cartId, command.productId));
  }

  /**
   * SubmitCart rejects an empty cart, then a submitted one; otherwise, with a cart id and every
   * product priced, it records one CartSubmitted whose pairs follow the items and whose total is
   * their sum, and the cart is then submitted. A rejection records nothing and changes nothing.
   */
  lemma SubmitCartGuards(s: AggState)
    ensures |s.cartItems| == 0 ==> SubmitCartSpec(s).error == Some(CannotSubmitEmptyCart)
    ensures |s.cartItems| > 0 && s.isSubmitted ==> SubmitCartSpec(s).error == Some(CartCannotBeSubmittedTwice)
    ensures SubmitCartSpec(s).error.Some? ==> SubmitCartSpec(s).raised == [] && SubmitCartSpec(s).state == s
    ensures SubmitCartSpec(s).error.None? <==>
      |s.cartItems| > 0 && !s.isSubmitted && s.cartId.Some? && forall i | 0 <= i < |s.cartItems| :: s.cartItems[i].1 in s.productPrice
    ensures var o := SubmitCartSpec(s);
      o.error.None? ==>
        && |o.raised| == 1 && o.raised[0].CartSubmitted? && o.raised[0].cartId == s.cartId.value
        && |o.raised[0].orderedProducts| == |s.cartItems|
        && (forall i | 0 <= i < |s.cartItems| :: o.raised[0].orderedProducts[i]
              == PricedProduct(s.cartItems[i].1, s.productPrice[s.cartItems[i].1]))
        && o.raised[0].totalPrice == D.Total(o.raised[0].orderedProducts)
        && o.state == s.(isSubmitted := true)
  {
  }

  /** Publish rejects an unsubmitted cart, then a published one; otherwise it records CartPublished. */
  lemma PublishGuards(s: AggState, command: PublishCartCommand)
    ensures !s.isSubmitted ==> PublishSpec(s, command) == Outcome([], s, Some(CannotPublishUnsubmittedCart))
    ensures s.isSubmitted && s.isPublished ==> PublishSpec(s, command) == Outcome([], s, Some(CartCannotBePublishedTwice))
    ensures s.isSubmitted && !s.isPublished ==>
      PublishSpec(s, command) == Outcome([CartPublished(command.cartId)], s.(isPublished := true), None)
  {
  }

  lemma PublishFailedRecords(s: AggState, command: PublishCartCommand)
    ensures PublishFailedSpec(s, command)
      == Outcome([CartPublicationFailed(command.cartId)], s.(publicationFailed := true), None)
  {
  }

  // ----- Recorded events replay to the state -----

  lemma {:induction false} HydrateAppend(s: AggState, a: seq<Event>, b: seq<Event>)
    ensures HydrateSpec(s, a + b)
      == match HydrateSpec(s, a) case Ok(mid) => HydrateSpec(mid, b) case Err(f) => Err(f)
    decreases |a|
  {
    if a == [] {
      assert a + b == b;
    } else {
      assert (a + b)[0] == a[0] && (a + b)[1..] == a[1..] + b;
      match ApplySpec(s, a[0])
      case Err(_) =>
      case Ok(next) => HydrateAppend(next, a[1..], b);
    }
  }

  lemma HydrateOne(s: AggState, e: Event)
    ensures HydrateSpec(s, [e]) == ApplySpec(s, e)
  {
    assert [e][1..] == [];
  }

  /**
   * The recorded events, hydrated from the state before the command, give the state after it;
   * or, when the last of them threw while being applied, hydration throws the same fault.
   */
  predicate Replays(s: AggState, o: Outcome) {
    HydrateSpec(s, o.raised) == Ok(o.state)
    || (o.error.Some? && o.error.value.Crashed? && HydrateSpec(s, o.raised) == Err(o.error.value.fault))
  }

  lemma RaiseReplays(s: AggState, e: Event)
    ensures Replays(s, Raise(s, e))
  {
    HydrateOne(s, e);
  }

  lemma ThenReplays(s: AggState, o: Outcome, e: Event)
    requires o.error.None? && HydrateSpec(s, o.raised) == Ok(o.state)
    ensures Replays(s, Then(o, e))
  {
    HydrateAppend(s, o.raised, [e]);
    RaiseReplays(o.state, e);
  }

  lemma AddItemReplays(s: AggState, command: AddItemCommand)
    ensures Replays(s, AddItemSpec(s, command))
  {
    var created := if s.cartId.None? then Raise(s, CartCreated(command.cartId)) else Outcome([], s, None);
    if s.cartId.None? {
      HydrateOne(s, CartCreated(command.cartId));
    }
    if |created.state.cartItems| < D.MaxItems {
      ThenReplays(s, created, ItemAdded(command.cartId, command.description, command.image, command.price,
                                        command.itemId, command.productId));
    }
  }

  lemma CommandsReplay(s: AggState, remove: RemoveItemCommand, archive: ArchiveItemCommand, publish: PublishCartCommand)
    ensures Replays(s, RemoveItemSpec(s, remove))
    ensures Replays(s, ClearSpec(s))
    ensures Replays(s, ArchiveItemSpec(s, archive))
    ensures Replays(s, SubmitCartSpec(s))
    ensures Replays(s, PublishSpec(s, publish))
    ensures Replays(s, PublishFailedSpec(s, publish))
  {
    RaiseReplays(s, ItemRemoved(remove.itemId, remove.cartId));
    if s.cartId.Some? {
      RaiseReplays(s, CartClearedCommand(s.cartId.value));
      var priced := D.PricesOf(s.cartItems, s.productPrice);
      if priced.Ok? {
        RaiseReplays(s, CartSubmitted(s.cartId.value, priced.value, D.Total(priced.value)));
      }
    }
    RaiseReplays(s, ItemArchived(archive.cartId, archive.productId));
    RaiseReplays(s, CartPublished(publish.cartId));
    RaiseReplays(s, CartPublicationFailed(publish.cartId));
  }

  class CartAggregate {
    var cartId: Option<Guid>
    var cartItems: OMap<Guid, Guid>
    var productPrice: map<Guid, int>
    var isSubmitted: bool
    var isPublished: bool
    var publicationFailed: bool
    var uncommittedEvents: seq<Event>

    function State(): AggState
      reads this
    {
      AggState(cartId, cartItems, productPrice, isSubmitted, isPublished, publicationFailed)
    }

    /** A fresh aggregate before hydration: no cart, no items, no flags, nothing recorded. */
    constructor Empty()
      ensures State() == Initial && uncommittedEvents == []
    {
      cartId := None;
      cartItems := [];
      productPrice := map[];
      isSubmitted := false;
      isPublished := false;
      publicationFailed := false;
      uncommittedEvents := [];
    }

    method Apply(e: Event) returns (fault: Option<Fault>)
      modifies this
      ensures uncommittedEvents == old(uncommittedEvents)
      ensures ApplySpec(old(State()), e).Ok? ==> fault.None? && State() == ApplySpec(old(State()), e).value
      ensures ApplySpec(old(State()), e).Err? ==> fault == Some(ApplySpec(old(State()), e).error) && State() == old(State())
    {
      fault := None;
      match e
      case CartCreated(id) =>
        cartId := Some(id);
      case ItemAdded(_, _, _, price, itemId, productId) =>
        if Has(cartItems, itemId) {
          fault := Some(DuplicateKey(itemId));
          return;
        }
        cartItems := Set(cartItems, itemId, productId);
        productPrice := productPrice[productId := price];
      case ItemRemoved(itemId, _) =>
        fault := RemoveEntry(itemId);
      case ItemArchived(_, itemId) =>
        fault := RemoveEntry(itemId);
      case CartSubmitted(_, _, _) =>
        isSubmitted := true;
      case CartCleared(_) =>
        cartItems := [];
        productPrice := map[];
      case CartPublished(_) =>
        isPublished := true;
      case CartPublicationFailed(_) =>
        publicationFailed := true;
      case _ =>
    }

    /** `productPrice.Remove(cartItems[itemId]); cartItems.Remove(itemId)`. */
    method RemoveEntry(itemId: Guid) returns (fault: Option<Fault>)
      modifies this
      ensures uncommittedEvents == old(uncommittedEvents)
      ensures RetireItem(old(State()), itemId).Ok? ==> fault.None? && State() == RetireItem(old(State()), itemId).value
      ensures RetireItem(old(State()), itemId).Err? ==> fault == Some(RetireItem(old(State()), itemId).error) && State() == old(State())
    {
      var productId := Get(cartItems, itemId);
      if productId.None? {
        return Some(KeyNotFound(itemId));
      }
      productPrice := productPrice - {productId.value};
      cartItems := Delete(cartItems, itemId);
      fault := None;
    }

    method RaiseEvent(e: Event) returns (error: Option<AggError>)
      modifies this
      ensures var o := Raise(old(State()), e);
        uncommittedEvents == old(uncommittedEvents) + o.raised && State() == o.state && error == o.error
    {
      uncommittedEvents := uncommittedEvents + [e];
      var fault := Apply(e);
      error := if fault.Some? then Some(Crashed(fault.value)) else None;
    }

    /** The constructor's stream: the fields become the hydrated state unless an event throws. */
    method Hydrate(stream: seq<Event>) returns (fault: Option<Fault>)
      modifies this
      ensures uncommittedEvents == old(uncommittedEvents)
      ensures HydrateSpec(old(State()), stream).Ok? ==> fault.None? && State() == HydrateSpec(old(State()), stream).value
      ensures HydrateSpec(old(State()), stream).Err? ==> fault == Some(HydrateSpec(old(State()), stream).error)
    {
      fault := None;
      var i := 0;
      while i < |stream|
        invariant 0 <= i <= |stream|
        invariant fault.None? && uncommittedEvents == old(uncommittedEvents)
        invariant HydrateSpec(old(State()), stream) == HydrateSpec(State(), stream[i..])
      {
        assert stream[i..][0] == stream[i] && stream[i..][1..] == stream[i + 1..];
        ghost var before := State();
        fault := Apply(stream[i]);
        if fault.Some? {
          assert HydrateSpec(before, stream[i..]) == Err(fault.value);
          return;
        }
        i := i + 1;
      }
      assert stream[i..] == [];
    }

    method AddItem(command: AddItemCommand) returns (error: Option<AggError>)
      modifies this
      ensures var o := AddItemSpec(old(State()), command);
        uncommittedEvents == old(uncommittedEvents) + o.raised && State() == o.state && error == o.error
    {
      error := None;
      if cartId.None? {
        error := RaiseEvent(CartCreated(command.cartId));
      }
      if |cartItems| >= D.MaxItems {
        return Some(TooManyItemsInCart(cartId, command.itemId));
      }
      error := RaiseEvent(ItemAdded(command.cartId, command.description, command.image, command.price,
                                    command.itemId, command.productId));
    }

    method RemoveItem(command: RemoveItemCommand) returns (error: Option<AggError>)
      modifies this
      ensures var o := RemoveItemSpec(old(State()), command);
        uncommittedEvents == old(uncommittedEvents) + o.raised && State() == o.state && error == o.error
    {
      if !Has(cartItems, command.itemId) {
        return Some(ItemCanNotBeRemoved(command.itemId));
      }
      error := RaiseEvent(ItemRemoved(command.itemId, command.cartId));
    }

    method Clear() returns (error: Option<AggError>)
      modifies this
      ensures var o := ClearSpec(old(State()));
        uncommittedEvents == old(uncommittedEvents) + o.raised && State() == o.state && error == o.error
    {
      if cartId.None? {
        return Some(Crashed(NullValue));
      }
      error := RaiseEvent(CartClearedCommand(cartId.value));
    }

    method ArchiveItem(command: ArchiveItemCommand) returns (error: Option<AggError>)
      modifies this
      ensures var o := ArchiveItemSpec(old(State()), command);
        uncommittedEvents == old(uncommittedEvents) + o.raised && State() == o.state && error == o.error
    {
      error := RaiseEvent(ItemArchived(command.cartId, command.productId));
    }

    method SubmitCart() returns (error: Option<AggError>)
      modifies this
      ensures var o := SubmitCartSpec(old(State()));
        uncommittedEvents == old(uncommittedEvents) + o.raised && State() == o.state && error == o.error
    {
      if |cartItems| == 0 {
        return Some(CannotSubmitEmptyCart);
      }
      if isSubmitted {
        return Some(CartCannotBeSubmittedTwice);
      }
      if cartId.None? {
        return Some(Crashed(NullValue));
      }
      var priced := D.PricesOf(cartItems, productPrice);
      if priced.Err? {
        return Some(Crashed(priced.error));
      }
      error := RaiseEvent(CartSubmitted(cartId.value, priced.value, D.Total(priced.value)));
    }

    method Publish(command: PublishCartCommand) returns (error: Option<AggError>)
      modifies this
      ensures var o := PublishSpec(old(State()), command);
        uncommittedEvents == old(uncommittedEvents) + o.raised && State() == o.state && error == o.error
    {
      if !isSubmitted {
        return Some(CannotPublishUnsubmittedCart);
      }
      if isPublished {
        return Some(CartCannotBePublishedTwice);
      }
      error := RaiseEvent(CartPublished(command.cartId));
    }

    method PublishFailed(command: PublishCartCommand) returns (error: Option<AggError>)
      modifies this
      ensures var o := PublishFailedSpec(old(State()), command);
        uncommittedEvents == old(uncommittedEvents) + o.raised && State() == o.state && error == o.error
    {
      error := RaiseEvent(CartPublicationFailed(command.cartId));
    }
  }

  // ----- The given/when/then scenarios on a fresh aggregate -----

  lemma HydrateCreatedAndItem(c: Guid, itemId: Guid, productId: Guid)
    ensures HydrateSpec(Initial, [CartCreated(c), Added(c, itemId, productId)])
      == Ok(Initial.(cartId := Some(c), cartItems := [(itemId, productId)], productPrice := map[productId := 10]))
  {
    var e0, e1 := CartCreated(c), Added(c, itemId, productId);
    assert [e0, e1][1..] == [e1];
    HydrateOne(Initial.(cartId := Some(c)), e1);
  }

  /** A new aggregate with an empty stream records CartCreated first. */
  method CartSessionCreatedAutomatically(c: Guid, itemId: Guid, productId: Guid) returns (events: seq<Event>)
    ensures |events| == 2 && events[0] == CartCreated(c)
  {
    var aggregate := new CartAggregate.Empty();
    var fault := aggregate.Hydrate([]);
    var error := aggregate.AddItem(AddItemCommand(c, Some("Description"), Some("Image"), 10, 10, itemId, productId));
    AddItemOnFresh(AddItemCommand(c, Some("Description"), Some("Image"), 10, 10, itemId, productId));
    events := aggregate.uncommittedEvents;
  }

  function Added(c: Guid, itemId: Guid, productId: Guid): Event {
    ItemAdded(c, Some("Description"), Some("Image"), 10, itemId, productId)
  }

  lemma AddFreshItem(s: AggState, c: Guid, itemId: Guid, productId: Guid)
    requires itemId !in Keys(s.cartItems)
    ensures HydrateSpec(s, [Added(c, itemId, productId)]).Ok?
    ensures HydrateSpec(s, [Added(c, itemId, productId)]).value
      == s.(cartItems := s.cartItems + [(itemId, productId)], productPrice := s.productPrice[productId := 10])
  {
    HydrateOne(s, Added(c, itemId, productId));
    ApplyItemAdded(s, Added(c, itemId, productId));
  }

  /** Hydrating one more event after a stream that hydrates continues from its state. */
  lemma HydrateSnoc(s: AggState, a: seq<Event>, e: Event)
    requires HydrateSpec(s, a).Ok?
    ensures HydrateSpec(s, a + [e]) == HydrateSpec(HydrateSpec(s, a).value, [e])
  {
    HydrateAppend(s, a, [e]);
  }

  function TwoItemsState(c: Guid, i1: Guid, i2: Guid, p1: Guid, p2: Guid): AggState
    requires i1 != i2
  {
    Initial.(cartId := Some(c), cartItems := [(i1, p1), (i2, p2)], productPrice := map[p1 := 10][p2 := 10])
  }

  /** A second item with a fresh id joins the hydrated one. */
  lemma SecondItemStep(c: Guid, i1: Guid, i2: Guid, p1: Guid, p2: Guid)
    requires i1 != i2
    ensures HydrateSpec(Initial.(cartId := Some(c), cartItems := [(i1, p1)], productPrice := map[p1 := 10]), [Added(c, i2, p2)])
      == Ok(TwoItemsState(c, i1, i2, p1, p2))
  {
    var s1 := Initial.(cartId := Some(c), cartItems := [(i1, p1)], productPrice := map[p1 := 10]);
    assert Keys(s1.cartItems) == [i1];
    AddFreshItem(s1, c, i2, p2);
    assert s1.cartItems + [(i2, p2)] == [(i1, p1), (i2, p2)];
  }

  lemma HydrateTwoItems(c: Guid, i1: Guid, i2: Guid, p1: Guid, p2: Guid)
    requires i1 != i2
    ensures HydrateSpec(Initial, [CartCreated(c), Added(c, i1, p1), Added(c, i2, p2)]) == Ok(TwoItemsState(c, i1, i2, p1, p2))
  {
    var a := [CartCreated(c), Added(c, i1, p1)];
    var e := Added(c, i2, p2);
    HydrateCreatedAndItem(c, i1, p1);
    SecondItemStep(c, i1, i2, p1, p2);
    HydrateSnoc(Initial, a, e);
    assert a + [e] == [CartCreated(c), Added(c, i1, p1), e];
  }

  /** A third item with a fresh id joins the two hydrated ones. */
  lemma ThirdItemStep(c: Guid, i1: Guid, i2: Guid, i3: Guid, p1: Guid, p2: Guid, p3: Guid)
    requires i1 != i2 && i1 != i3 && i2 != i3
    ensures var h := HydrateSpec(TwoItemsState(c, i1, i2, p1, p2), [Added(c, i3, p3)]);
      h.Ok? && h.value.cartId == Some(c) && |h.value.cartItems| == 3
  {
    var s2 := TwoItemsState(c, i1, i2, p1, p2);
    assert Keys(s2.cartItems) == [i1, i2];
    AddFreshItem(s2, c, i3, p3);
  }

  /** CartCreated and three items with distinct ids hydrate to a cart with an id and three items. */
  lemma HydrateThreeItems(c: Guid, i1: Guid, i2: Guid, i3: Guid, p1: Guid, p2: Guid, p3: Guid)
    requires i1 != i2 && i1 != i3 && i2 != i3
    ensures var h := HydrateSpec(Initial, [CartCreated(c), Added(c, i1, p1), Added(c, i2, p2), Added(c, i3, p3)]);
      h.Ok? && h.value.cartId == Some(c) && |h.value.cartItems| == 3
  {
    var a := [CartCreated(c), Added(c, i1, p1), Added(c, i2, p2)];
    var e := Added(c, i3, p3);
    HydrateTwoItems(c, i1, i2, p1, p2);
    ThirdItemStep(c, i1, i2, i3, p1, p2, p3);
    HydrateSnoc(Initial, a, e);
    assert a + [e] == [CartCreated(c), Added(c, i1, p1), Added(c, i2, p2), e];
  }

  /** With three items hydrated, AddItem throws and, the cart having an id, records nothing. */
  method AddsMaximum3Items(c: Guid, i1: Guid, i2: Guid, i3: Guid, i4: Guid, p1: Guid, p2: Guid, p3: Guid, p4: Guid)
    returns (error: Option<AggError>, events: seq<Event>)
    requires i1 != i2 && i1 != i3 && i2 != i3
    ensures error == Some(TooManyItemsInCart(Some(c), i4)) && events == []
  {
    var aggregate := new CartAggregate.Empty();
    var fault := aggregate.Hydrate([CartCreated(c), Added(c, i1, p1), Added(c, i2, p2), Added(c, i3, p3)]);
    HydrateThreeItems(c, i1, i2, i3, p1, p2, p3);
    var command := AddItemCommand(c, Some("Description"), Some("Image"), 10, 10, i4, p4);
    AddItemTooMany(aggregate.State(), command);
    error := aggregate.AddItem(command);
    events := aggregate.uncommittedEvents;
  }

  /** Removing a hydrated item records exactly ItemRemoved. */
  method RemoveItemTest(c: Guid, itemId: Guid, productId: Guid) returns (error: Option<AggError>, events: seq<Event>)
    ensures error.None? && events == [ItemRemoved(itemId, c)]
  {
    var aggregate := new CartAggregate.Empty();
    var fault := aggregate.Hydrate([CartCreated(c), Added(c, itemId, productId)]);
    HydrateCreatedAndItem(c, itemId, productId);
    error := aggregate.RemoveItem(RemoveItemCommand(itemId, c));
    events := aggregate.uncommittedEvents;
  }

  /** Removing an item that was already removed throws ItemCanNotBeRemoved. */
  method RemoveItemWhichWasAlreadyRemovedThrows(c: Guid, itemId: Guid, productId: Guid)
    returns (error: Option<AggError>, events: seq<Event>)
    ensures error == Some(ItemCanNotBeRemoved(itemId)) && events == []
  {
    var aggregate := new CartAggregate.Empty();
    var fault := aggregate.Hydrate([CartCreated(c), Added(c, itemId, productId)]);
    HydrateCreatedAndItem(c, itemId, productId);
    fault := aggregate.Hydrate([ItemRemoved(itemId, c)]);
    HydrateOne(aggregate.State(), ItemRemoved(itemId, c));
    error := aggregate.RemoveItem(RemoveItemCommand(itemId, c));
    events := aggregate.uncommittedEvents;
  }
}
