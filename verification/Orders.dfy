/** The records exchanged by the order services (the Avro schemas of the `orders` and `order-validations` topics). */
module Orders {
  import opened Options

  datatype OrderState = CREATED | VALIDATED | FAILED | SHIPPED

  datatype Product = JUMPERS | UNDERPANTS | STOCKINGS

  datatype Order = Order(
    id: string,
    customerId: int,
    state: OrderState,
    product: Option<Product>,  // None is Java's null
    quantity: int,
    price: real)

  datatype CheckType = INVENTORY_CHECK | FRAUD_CHECK | ORDER_DETAILS_CHECK

  datatype CheckResult = PASS | FAIL | ERROR

  datatype OrderValidation = OrderValidation(orderId: string, checkType: CheckType, result: CheckResult)

  /** A topic record: its event time in milliseconds and its value. */
  datatype Stamped<+T> = Stamped(ts: int, value: T)
}
