/** The payment recorder: numbered payment records, each created
    COMPLETED and refundable once. Payments are not linked to orders. */
module Payments {
  import opened Outcomes

  datatype PaymentStatus = Completed | Refunded

  /** One payment; the amount is in integer cents. Only the status is
      updated in place. */
  class Payment {
    const id: int
    const tenantId: int
    const orderId: int
    const amount: int
    const paymentMethod: string
    var status: PaymentStatus

    constructor (id: int, tenantId: int, orderId: int, amount: int, paymentMethod: string)
      ensures this.id == id && this.tenantId == tenantId && this.orderId == orderId
      ensures this.amount == amount && this.paymentMethod == paymentMethod
      ensures status == Completed
    {
      this.id := id;
      this.tenantId := tenantId;
      this.orderId := orderId;
      this.amount := amount;
      this.paymentMethod := paymentMethod;
      this.status := Completed;
    }
  }

  class PaymentService {
    var payments: map<int, Payment>
    var nextId: int

    /** The stored ids are exactly 1 .. nextId - 1, each payment under its own id. */
    ghost predicate Valid()
      reads this
    {
      && nextId >= 1
      && (forall id :: id in payments <==> 1 <= id < nextId)
      && (forall id :: id in payments ==> payments[id].id == id)
    }

    constructor ()
      ensures Valid()
      ensures payments == map[] && nextId == 1
    {
      payments := map[];
      nextId := 1;
    }

    /** Records a payment. Only the amount is checked: the order id and the
        amount are not compared with any order. */
    method PayOrder(tenantId: int, orderId: int, amount: int, paymentMethod: string) returns (r: Result<Payment>)
      requires Valid()
      modifies this
      ensures Valid()
      ensures r.Err? <==> amount <= 0
      ensures r.Err? ==> payments == old(payments) && nextId == old(nextId)
      ensures r.Ok? ==> fresh(r.value) && payments == old(payments)[old(nextId) := r.value] && nextId == old(nextId) + 1
      ensures r.Ok? ==> && r.value.id == old(nextId) && r.value.tenantId == tenantId && r.value.orderId == orderId
                        && r.value.amount == amount && r.value.paymentMethod == paymentMethod
                        && r.value.status == Completed
    {
      if amount <= 0 {
        return Err;
      }
      var payment := new Payment(nextId, tenantId, orderId, amount, paymentMethod);
      payments := payments[nextId := payment];
      nextId := nextId + 1;
      r := Ok(payment);
    }

    method GetPayment(paymentId: int) returns (r: Result<Payment>)
      ensures r.Ok? <==> paymentId in payments
      ensures r.Ok? ==> r.value == payments[paymentId]
    {
      if paymentId !in payments {
        return Err;
      }
      r := Ok(payments[paymentId]);
    }

    /** COMPLETED -> REFUNDED, once; nothing else changes. */
    method RefundPayment(paymentId: int) returns (ok: bool)
      requires Valid()
      modifies if paymentId in payments then {payments[paymentId]} else {}
      ensures Valid()
      ensures ok <==> paymentId in payments && old(payments[paymentId].status) == Completed
      ensures paymentId in payments ==>
        payments[paymentId].status == if ok then Refunded else old(payments[paymentId].status)
    {
      var found := GetPayment(paymentId);
      if found.Err? {
        return false;
      }
      var payment := found.value;
      if payment.status != Completed {
        return false;
      }
      payment.status := Refunded;
      ok := true;
    }
  }
}
