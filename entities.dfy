/** The records the gateway exchanges with the remote CRM, and the calls it
    issues. Only the attributes the gateway reads or writes are modelled. */
module Entities {
  import opened Wrappers

  datatype Phone = Phone(number: string)

  /** A CRM customer: internal id, optional external id, optional site. */
  datatype Customer = Customer(
    id: int,
    externalId: Option<string>,
    site: Option<string>,
    phones: seq<Phone>)

  /** A CRM order, with the id of the customer that owns it. */
  datatype Order = Order(id: int, site: Option<string>, customerId: int)

  /** An API exception: status code and message. */
  datatype Fault = Fault(statusCode: int, message: string)

  /** The path key of an edit or subscriptions request. */
  datatype Identifier = ExternalKey(externalId: Option<string>) | IdKey(id: int)

  datatype EditRequest = EditRequest(identifiedBy: string, customer: Customer, site: Option<string>)

  datatype Subscription = Subscription(channel: string, subscribed: bool)

  datatype SubscriptionsRequest = SubscriptionsRequest(
    identifiedBy: string,
    site: Option<string>,
    subscriptions: seq<Subscription>)

  datatype CustomerReference = CustomerReference(id: int)

  datatype CombineRequest = CombineRequest(
    resultCustomer: CustomerReference,
    customers: seq<CustomerReference>)

  /** The body of a successful response, opaque to the gateway. */
  datatype Response = Response(body: string)

  /** One page of a list endpoint with its pagination metadata. */
  datatype Page<T> = Page(items: seq<T>, totalPageCount: int)

  /** A request sent to the remote API, in the order it was sent. */
  datatype Call =
    | ListCustomersCall(page: int, limit: int)
    | ListOrdersCall(page: int, limit: int)
    | EditCall(key: Identifier, editRequest: EditRequest)
    | SubscriptionsCall(key: Identifier, subscriptionsRequest: SubscriptionsRequest)
    | CombineCall(combineRequest: CombineRequest)
}
