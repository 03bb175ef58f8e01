/** The order types: status enumerations, shipping address and the order record. */
module OrderInterface {
  import opened Common

  datatype OrderStatus = Pending | Processing | Shipped | Delivered | Cancelled

  datatype PaymentStatus = PaymentPending | Completed | Failed

  datatype ShippingAddress = ShippingAddress(street: string, city: string, state: string, zipCode: string, country: string)

  /** An order: a snapshot of (book, quantity, price) lines with a total and two statuses. */
  datatype Order = Order(
    id: OrderId,
    user: UserId,
    items: seq<LineItem>,
    totalAmount: real,
    shippingAddress: Option<ShippingAddress>,
    status: OrderStatus,
    paymentStatus: PaymentStatus)
}
