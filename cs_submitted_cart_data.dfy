/**
 * The submitted-cart-data state view of the command-handler project
 * (`SubmittedCartDataProjector.Project`): a list with one entry per CartSubmitted event,
 * from which CartPublished removes every entry of its cart.
 */
module CsSubmittedCartData {
  import opened CsEvents

  datatype SubmittedCartData = SubmittedCartData(cartId: Guid, orderedProducts: seq<PricedProduct>, totalPrice: int)

  /** The entry a CartSubmitted event adds: its cart, its (ProductId, Price) pairs and its total. */
  function Entry(e: Event): SubmittedCartData
    requires e.CartSubmitted?
  {
    SubmittedCartData(e.cartId, e.orderedProducts, e.totalPrice)
  }

  /** `RemoveAll(x => x.CartId == cartId)`: drops the entries of one cart, keeping the others in order. */
  function RemoveCart(sv: seq<SubmittedCartData>, cartId: Guid): (r: seq<SubmittedCartData>)
    ensures forall d :: d in r <==> d in sv && d.cartId != cartId
    ensures |r| <= |sv|
    ensures (forall i | 0 <= i < |sv| :: sv[i].cartId != cartId) ==> r == sv
    decreases |sv|
  {
    if sv == [] then []
    else (if sv[0].cartId == cartId then [] else [sv[0]]) + RemoveCart(sv[1..], cartId)
  }

  /** One step of the `Aggregate`. */
  function Step(sv: seq<SubmittedCartData>, e: Event): (r: seq<SubmittedCartData>)
    ensures e.CartSubmitted? ==> |r| == |sv| + 1 && r[..|sv|] == sv && r[|sv|] == Entry(e)
    ensures e.CartPublished? ==> forall d :: d in r <==> d in sv && d.cartId != e.cartId
    ensures !e.CartSubmitted? && !e.CartPublished? ==> r == sv
  {
    match e
    case CartSubmitted(_, _, _) => sv + [Entry(e)]
    case CartPublished(cartId) => RemoveCart(sv, cartId)
    case _ => sv
  }

  /** The view of a stream: the steps applied left to right from the empty list. */
  function SubmittedCarts(stream: seq<Event>): seq<SubmittedCartData>
    decreases |stream|
  {
    if stream == [] then [] else Step(SubmittedCarts(stream[..|stream| - 1]), stream[|stream| - 1])
  }

  method Project(stream: seq<Event>) returns (sv: seq<SubmittedCartData>)
    ensures sv == SubmittedCarts(stream)
  {
    sv := [];
    for i := 0 to |stream|
      invariant sv == SubmittedCarts(stream[..i])
    {
      assert stream[..i + 1][..i] == stream[..i];
      match stream[i]
      case CartSubmitted(cartId, orderedProducts, totalPrice) =>
        sv := sv + [SubmittedCartData(cartId, orderedProducts, totalPrice)];
      case CartPublished(cartId) =>
        sv := RemoveCart(sv, cartId);
      case _ =>
    }
    assert stream[..|stream|] == stream;
  }

  // ----- An independent description of the view -----

  /** Some event after position k publishes the cart. */
  predicate PublishedAfter(stream: seq<Event>, k: nat, cartId: Guid) {
    exists j | k < j < |stream| :: stream[j] == CartPublished(cartId)
  }

  /**
   * In event order, the entry of every CartSubmitted at position k or later whose cart is not
   * published by a later event.
   */
  function Pending(stream: seq<Event>, k: nat): seq<SubmittedCartData>
    requires k <= |stream|
    decreases |stream| - k
  {
    if k == |stream| then []
    else
      (if stream[k].CartSubmitted? && !PublishedAfter(stream, k, stream[k].cartId) then [Entry(stream[k])] else [])
      + Pending(stream, k + 1)
  }

  /** After appending an event, a cart is published after k when it was already, or the event publishes it. */
  lemma PublishedAfterSnoc(s: seq<Event>, e: Event, k: nat, cartId: Guid)
    requires k < |s|
    ensures PublishedAfter(s + [e], k, cartId) <==> PublishedAfter(s, k, cartId) || e == CartPublished(cartId)
  {
    var t := s + [e];
    if PublishedAfter(t, k, cartId) && e != CartPublished(cartId) {
      var j :| k < j < |t| && t[j] == CartPublished(cartId);
      assert s[j] == t[j];
    }
    if PublishedAfter(s, k, cartId) {
      var j :| k < j < |s| && s[j] == CartPublished(cartId);
      assert t[j] == s[j];
    }
    if e == CartPublished(cartId) {
      assert t[|s|] == e;
    }
  }

  lemma {:induction false} PendingSnoc(s: seq<Event>, e: Event, k: nat)
    requires k <= |s|
    ensures Pending(s + [e], k) == if e.CartPublished? then RemoveCart(Pending(s, k), e.cartId)
                                   else if e.CartSubmitted? then Pending(s, k) + [Entry(e)]
                                   else Pending(s, k)
    decreases |s| - k
  {
    var t := s + [e];
    if k == |s| {
      if e.CartSubmitted? {
        assert !PublishedAfter(t, k, e.cartId);
      }
      assert Pending(t, k + 1) == [];
    } else {
      PendingSnoc(s, e, k + 1);
      assert t[k] == s[k];
      if s[k].CartSubmitted? {
        PublishedAfterSnoc(s, e, k, s[k].cartId);
      }
      var head := if s[k].CartSubmitted? && !PublishedAfter(s, k, s[k].cartId) then [Entry(s[k])] else [];
      assert Pending(s, k) == head + Pending(s, k + 1);
      if e.CartPublished? {
        if head != [] {
          assert (head + Pending(s, k + 1))[1..] == Pending(s, k + 1);
        } else {
          assert head + Pending(s, k + 1) == Pending(s, k + 1);
        }
      } else if e.CartSubmitted? {
        assert head + (Pending(s, k + 1) + [Entry(e)]) == (head + Pending(s, k + 1)) + [Entry(e)];
      }
    }
  }

  /**
   * The view lists, in event order, exactly the submissions whose cart was not published
   * afterwards: submission order is kept, and a republished cart is gone.
   */
  lemma {:induction false} SubmittedCartsArePending(stream: seq<Event>)
    ensures SubmittedCarts(stream) == Pending(stream, 0)
    decreases |stream|
  {
    if stream != [] {
      var s, e := stream[..|stream| - 1], stream[|stream| - 1];
      assert s + [e] == stream;
      SubmittedCartsArePending(s);
      PendingSnoc(s, e, 0);
    }
  }

  lemma SubmittedCartsEmpty()
    ensures SubmittedCarts([]) == []
  {
  }

  /** Membership in the pending list: a submission at some position k with no later publication. */
  lemma {:induction false} PendingMembers(stream: seq<Event>, k: nat, d: SubmittedCartData)
    requires k <= |stream|
    ensures d in Pending(stream, k) <==> exists i | k <= i < |stream| ::
      stream[i].CartSubmitted? && Entry(stream[i]) == d && !PublishedAfter(stream, i, d.cartId)
    decreases |stream| - k
  {
    if k < |stream| {
      PendingMembers(stream, k + 1, d);
    }
  }

  /** An entry is in the view exactly when its CartSubmitted occurred and its cart was not published later. */
  lemma SubmittedCartsMembers(stream: seq<Event>, d: SubmittedCartData)
    ensures d in SubmittedCarts(stream) <==> exists i | 0 <= i < |stream| ::
      stream[i].CartSubmitted? && Entry(stream[i]) == d && !PublishedAfter(stream, i, d.cartId)
  {
    SubmittedCartsArePending(stream);
    PendingMembers(stream, 0, d);
  }

  /** After CartPublished(c) no entry of cart c is left, and no other entry is lost. */
  lemma PublishRemovesCart(stream: seq<Event>, c: Guid)
    ensures forall d | d in SubmittedCarts(stream + [CartPublished(c)]) :: d.cartId != c
    ensures forall d | d in SubmittedCarts(stream) && d.cartId != c :: d in SubmittedCarts(stream + [CartPublished(c)])
  {
    assert (stream + [CartPublished(c)])[..|stream|] == stream;
  }
}
