/**
 * The display names of the order enums (data/model/Order.kt): `OrderStatus.getDisplayName`
 * and `PaymentMethod.getDisplayName`.
 */
module Orders {
  import opened Options

  datatype OrderStatus = Pending | Processing | Shipped | Delivered | Cancelled

  datatype PaymentMethod = CreditCard | DebitCard | PayPal | CashOnDelivery

  /** `OrderStatus.getDisplayName`; no two statuses share a display name. */
  function StatusDisplayName(status: OrderStatus): (r: string)
    ensures StatusOfDisplayName(r) == Some(status)
  {
    match status
    case Pending => "Pending"
    case Processing => "Processing"
    case Shipped => "Shipped"
    case Delivered => "Delivered"
    case Cancelled => "Cancelled"
  }

  /** The status a display name stands for, if any. */
  function StatusOfDisplayName(name: string): Option<OrderStatus> {
    if name == "Pending" then Some(Pending)
    else if name == "Processing" then Some(Processing)
    else if name == "Shipped" then Some(Shipped)
    else if name == "Delivered" then Some(Delivered)
    else if name == "Cancelled" then Some(Cancelled)
    else None
  }

  /** The five status display names are pairwise distinct. */
  lemma StatusDisplayNameInjective(a: OrderStatus, b: OrderStatus)
    requires StatusDisplayName(a) == StatusDisplayName(b)
    ensures a == b
  {
    assert StatusOfDisplayName(StatusDisplayName(a)) == Some(a);
  }

  /** `PaymentMethod.getDisplayName`; no two methods share a display name. */
  function PaymentDisplayName(payment: PaymentMethod): (r: string)
    ensures PaymentOfDisplayName(r) == Some(payment)
  {
    match payment
    case CreditCard => "Credit Card"
    case DebitCard => "Debit Card"
    case PayPal => "PayPal"
    case CashOnDelivery => "Cash on Delivery"
  }

  /** The payment method a display name stands for, if any. */
  function PaymentOfDisplayName(name: string): Option<PaymentMethod> {
    if name == "Credit Card" then Some(CreditCard)
    else if name == "Debit Card" then Some(DebitCard)
    else if name == "PayPal" then Some(PayPal)
    else if name == "Cash on Delivery" then Some(CashOnDelivery)
    else None
  }

  /** The four payment display names are pairwise distinct. */
  lemma PaymentDisplayNameInjective(a: PaymentMethod, b: PaymentMethod)
    requires PaymentDisplayName(a) == PaymentDisplayName(b)
    ensures a == b
  {
    assert PaymentOfDisplayName(PaymentDisplayName(a)) == Some(a);
  }
}
