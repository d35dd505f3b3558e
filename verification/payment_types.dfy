/** The request and response records exchanged with the payment gateway
    (types/payment-type.ts), restricted to the ones the gateway client and the
    order action use. */
module PaymentTypes {
  import opened Wrappers

  /** The consumer key and secret sent to the token endpoint. */
  datatype Credentials = Credentials(consumer_key: string, consumer_secret: string)

  /** The token endpoint's answer: the expiry is still text here. */
  datatype PaymentAuth = PaymentAuth(token: string, expiryDate: string)

  /** A JavaScript `Date`: a millisecond timestamp, or the Invalid Date that
      `new Date(text)` yields for text it cannot parse. */
  datatype Date = ValidDate(ms: int) | InvalidDate

  /** The cached token: the expiry has been converted into a `Date`. */
  datatype TokenInfo = TokenInfo(token: string, expiryDate: Date)

  /** The billing address of an order: exactly six text fields. */
  datatype BillingAddress = BillingAddress(
    email_address: string,
    phone_number: string,
    country_code: string,
    first_name: string,
    last_name: string,
    line_1: string)

  datatype PaymentOrderRequest = PaymentOrderRequest(
    id: string,
    currency: string,
    amount: int,
    description: string,
    callback_url: string,
    notification_id: string,
    branch: string,
    billing_address: BillingAddress)

  /** The order submission's answer. Only `error` may be null; a missing or
      null `redirect_url` is represented by the empty (falsy) string. */
  datatype PaymentOrderResponse = PaymentOrderResponse(
    order_tracking_id: string,
    merchant_reference: string,
    redirect_url: string,
    error: Option<string>,
    status: string)

  /** The IPN registration body: exactly the callback URL and the notification type. */
  datatype PaymentIPNRegister = PaymentIPNRegister(url: string, ipnNotificationType: string)

  datatype PaymentIPNResponse = PaymentIPNResponse(status: string, description: string)

  /** The transaction-status record, with the fields the storefront could act on. */
  datatype PaymentOrderStatus = PaymentOrderStatus(
    order_tracking_id: string,
    merchant_reference: string,
    payment_status_description: string,
    confirmation_code: string,
    amount: int,
    currency: string,
    status_code: int,
    status: string)
}
