/**
 * The orders screen of the admin panel: which status buttons an order offers, the status each one
 * writes, the badge for a status, and the line totals of an order's items.
 */
module OrdersManagement {
  import opened Wrappers
  import opened Cart
  import opened Shop

  datatype Order = Order(customerName: string, customerPhone: string, totalAmount: int, status: string)

  /** The three status buttons. */
  datatype OrderAction = Confirm | Deliver | Cancel

  /** The statuses the screen knows; any other text is shown as it is. */
  predicate KnownStatus(status: string) {
    status == "pending" || status == "confirmed" || status == "delivered" || status == "cancelled"
  }

  /**
   * Whether an order in `status` shows the button: "confirm" only for `pending`, "delivered" only for
   * `confirmed`, "cancel" for everything except `cancelled` and `delivered`.
   */
  predicate Offered(status: string, action: OrderAction) {
    match action
    case Confirm => status == "pending"
    case Deliver => status == "confirmed"
    case Cancel => status != "cancelled" && status != "delivered"
  }

  /** The status a button writes. */
  function Target(action: OrderAction): string {
    match action
    case Confirm => "confirmed"
    case Deliver => "delivered"
    case Cancel => "cancelled"
  }

  /** `cancelled` and `delivered` are exactly the statuses that offer no button at all. */
  lemma TerminalIff(status: string)
    ensures (forall a: OrderAction :: !Offered(status, a)) <==> status == "cancelled" || status == "delivered"
  {
    if status != "cancelled" && status != "delivered" {
      assert Offered(status, Cancel);
    }
  }

  /** An order only reaches `delivered` from `confirmed`, and only reaches `confirmed` from `pending`. */
  lemma TransitionSources(status: string, action: OrderAction)
    requires Offered(status, action)
    ensures Target(action) == "delivered" ==> status == "confirmed"
    ensures Target(action) == "confirmed" ==> status == "pending"
    ensures Target(action) != status
  {
  }

  /** The status after pressing buttons in turn; a button the order does not show cannot be pressed. */
  function Apply(status: string, presses: seq<OrderAction>): string
    decreases |presses|
  {
    if presses == [] then status
    else Apply(if Offered(status, presses[0]) then Target(presses[0]) else status, presses[1..])
  }

  /** Once cancelled or delivered, an order stays so whatever is pressed. */
  lemma {:induction false} TerminalIsFinal(status: string, presses: seq<OrderAction>)
    requires status == "cancelled" || status == "delivered"
    ensures Apply(status, presses) == status
    decreases |presses|
  {
    if presses != [] {
      TerminalIsFinal(status, presses[1..]);
    }
  }

  /** From a known status, pressing buttons only ever leads to known statuses. */
  lemma {:induction false} StaysKnown(status: string, presses: seq<OrderAction>)
    requires KnownStatus(status)
    ensures KnownStatus(Apply(status, presses))
    decreases |presses|
  {
    if presses != [] {
      var next := if Offered(status, presses[0]) then Target(presses[0]) else status;
      StaysKnown(next, presses[1..]);
    }
  }

  /** An order that is delivered was confirmed before: a run from `pending` passes through `confirmed`. */
  lemma {:induction false} DeliveredWasConfirmed(status: string, presses: seq<OrderAction>)
    requires status == "pending"
    requires Apply(status, presses) == "delivered"
    ensures exists k :: 0 <= k < |presses| && Apply(status, presses[..k]) == "confirmed"
    decreases |presses|
  {
    assert presses != [];
    var next := if Offered(status, presses[0]) then Target(presses[0]) else status;
    if next == "confirmed" {
      assert presses[..1] == [presses[0]];
      assert Apply(status, presses[..1]) == Apply(next, []);
    } else if next == "cancelled" {
      TerminalIsFinal(next, presses[1..]);
    } else {
      assert next == "pending";
      DeliveredWasConfirmed(next, presses[1..]);
      var k :| 0 <= k < |presses[1..]| && Apply(next, presses[1..][..k]) == "confirmed";
      assert presses[..k + 1][1..] == presses[1..][..k];
      assert Apply(status, presses[..k + 1]) == "confirmed";
    }
  }

  datatype BadgeVariant = DefaultBadge | SecondaryBadge | DestructiveBadge

  datatype Badge = Badge(variant: BadgeVariant, text: string)

  /** `getStatusBadge`: the fixed variant and Arabic label of a known status, else `secondary` and the raw text. */
  function StatusBadge(status: string): (badge: Badge)
    ensures !KnownStatus(status) ==> badge == Badge(SecondaryBadge, status)
    ensures badge.variant == DestructiveBadge <==> status == "cancelled"
    ensures badge.variant == DefaultBadge <==> status == "confirmed" || status == "delivered"
  {
    if status == "pending" then Badge(SecondaryBadge, "قيد الانتظار")
    else if status == "confirmed" then Badge(DefaultBadge, "مؤكد")
    else if status == "delivered" then Badge(DefaultBadge, "تم التوصيل")
    else if status == "cancelled" then Badge(DestructiveBadge, "ملغي")
    else Badge(SecondaryBadge, status)
  }

  /** The badge shows the raw status text exactly when the status is not one of the four known ones. */
  lemma BadgeShowsRawTextIff(status: string)
    ensures StatusBadge(status).text == status <==> !KnownStatus(status)
  {
    if status == "pending" {
      assert "قيد الانتظار"[0] != "pending"[0];
    } else if status == "confirmed" {
      assert "مؤكد"[0] != "confirmed"[0];
    } else if status == "delivered" {
      assert "تم التوصيل"[0] != "delivered"[0];
    } else if status == "cancelled" {
      assert "ملغي"[0] != "cancelled"[0];
    }
  }

  /** `item.price_at_time * item.quantity`. */
  function ItemLineTotal(item: OrderItem): int { item.priceAtTime * item.quantity }

  /** The admin's line total of a written order item is what that cart line cost at checkout. */
  lemma LineTotalMatchesCart(cart: seq<CartItem>, orderId: string, j: nat)
    requires j < |cart|
    ensures j < |OrderItemsOf(cart, orderId)| && ItemLineTotal(OrderItemsOf(cart, orderId)[j]) == LineTotal(cart[j])
  {
  }

  class OrdersBoard {
    /** The orders table, by id. */
    var orders: map<string, Order>

    constructor(orders: map<string, Order>)
      ensures this.orders == orders
    {
      this.orders := orders;
    }

    /**
     * `updateOrderStatus`: when the database accepts the update, the order with that id (if any) takes the
     * new status and nothing else changes; on an error nothing changes.
     */
    method UpdateOrderStatus(orderId: string, status: string, accepted: bool)
      modifies this
      ensures accepted && orderId in old(orders) ==> orders == old(orders)[orderId := old(orders)[orderId].(status := status)]
      ensures !accepted || orderId !in old(orders) ==> orders == old(orders)
    {
      if accepted && orderId in orders {
        orders := orders[orderId := orders[orderId].(status := status)];
      }
    }

    /** Pressing a button the order shows writes that button's status. */
    method Press(orderId: string, action: OrderAction, accepted: bool)
      requires orderId in orders && Offered(orders[orderId].status, action)
      modifies this
      ensures accepted ==> orders == old(orders)[orderId := old(orders)[orderId].(status := Target(action))]
      ensures !accepted ==> orders == old(orders)
    {
      UpdateOrderStatus(orderId, Target(action), accepted);
    }
  }
}
