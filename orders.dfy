/**
 * Coffee-case orders: creation with a generated customer code, status
 * updates by an admin, and the `GetAllOrders` paging rule. Orders live in a
 * typed collection keyed by their document ID.
 */
module Orders {
  import opened Wrappers
  import opened Models
  import opened Firestore
  import opened Bytes
  import Generators
  import Submissions

  /**
   * `CreateOrder`: 400 when the body does not bind; otherwise the order gets
   * its document ID, a generated six-character code, status "pending", an
   * unused submission flag and the two clock readings, whatever the client sent.
   */
  method CreateOrder(body: Option<Order>, docID: string, draw: nat -> Option<Byte>, now1: int, now2: int,
                     orders: Collection<Order>)
    returns (status: int, created: Option<Order>, orders': Collection<Order>)
    ensures body.None? ==> status == StatusBadRequest && created.None? && orders' == orders
    ensures body.Some? ==>
              && status == StatusCreated
              && created == Some(body.value.(ID := docID, OrderID := Generators.OrderIDFor(draw), Status := "pending",
                                             IsSubmissionUsed := false, CreatedAt := now1, UpdatedAt := now2))
              && orders' == Set(orders, docID, created.value)
              && Get(orders', docID) == created
  {
    if body.None? {
      return StatusBadRequest, None, orders;
    }
    var order := body.value;
    var code := Generators.GenerateOrderID(draw);
    order := order.(ID := docID, OrderID := code, Status := "pending", IsSubmissionUsed := false);
    order := order.(CreatedAt := now1, UpdatedAt := now2);
    orders' := Set(orders, docID, order);
    GetSet(orders, docID, order);
    status, created := StatusCreated, Some(order);
  }

  /** A new order cannot be redeemed, whatever the client sent, until its status becomes "delivered". */
  lemma NewOrderNotRedeemable(body: Order, docID: string, code: string, now1: int, now2: int)
    ensures !Submissions.Redeemable(body.(ID := docID, OrderID := code, Status := "pending",
                                          IsSubmissionUsed := false, CreatedAt := now1, UpdatedAt := now2))
    ensures Submissions.Redeemable(body.(ID := docID, OrderID := code, Status := "delivered",
                                         IsSubmissionUsed := false, CreatedAt := now1, UpdatedAt := now2))
  {
  }

  /**
   * `UpdateOrderStatus`: 400 when the body does not bind, 404 when the order
   * does not exist; otherwise exactly the status and the update time change.
   */
  method UpdateOrderStatus(id: string, body: Option<string>, now: int, orders: Collection<Order>)
    returns (status: int, updated: Option<Order>, orders': Collection<Order>)
    ensures body.None? ==> status == StatusBadRequest && updated.None? && orders' == orders
    ensures body.Some? && Get(orders, id).None? ==> status == StatusNotFound && updated.None? && orders' == orders
    ensures body.Some? && Get(orders, id).Some? ==>
              && status == StatusOK
              && updated == Some(Get(orders, id).value.(Status := body.value, UpdatedAt := now))
              && Get(orders', id) == updated
              && forall other :: other != id ==> Get(orders', other) == Get(orders, other)
  {
    if body.None? {
      return StatusBadRequest, None, orders;
    }
    var doc := Get(orders, id);
    if doc.None? {
      return StatusNotFound, None, orders;
    }
    var order := doc.value;
    order := order.(Status := body.value);
    order := order.(UpdatedAt := now);
    orders' := Set(orders, id, order);
    GetSet(orders, id, order);
    forall other | other != id ensures Get(orders', other) == Get(orders, other) {
      GetSetOther(orders, id, order, other);
    }
    status, updated := StatusOK, Some(order);
  }

  /** Marking an order delivered makes an unused order redeemable, any other status makes it not. */
  lemma StatusDecidesRedemption(o: Order, newStatus: string, now: int)
    requires !o.IsSubmissionUsed
    ensures Submissions.Redeemable(o.(Status := newStatus, UpdatedAt := now)) <==> newStatus == "delivered"
  {
  }
}
