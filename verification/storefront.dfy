/** The records the Angular client exchanges with the backend, and the shape of a
    remote call's outcome. */
module Storefront {
  import opened Wrappers

  /** A catalog entry as the client sees it. `productId` is absent for a product not
      yet saved; prices are whole cents. */
  datatype Product = Product(
    productId: Option<int>,
    name: string,
    price: int,
    stockQuantity: int,
    description: string,
    imageUrl: string)

  /** The empty form the admin screens reset to: id 0, empty strings, zero numbers. */
  const BlankProduct := Product(Some(0), "", 0, 0, "", "")

  /** An order as listed to the client. */
  datatype Order = Order(
    orderId: int,
    userId: int,
    status: string,
    paymentStatus: string,
    totalAmount: int,
    orderDate: string)

  /** The `error` payload of an Angular `HttpErrorResponse`: absent or falsy, a string
      (possibly empty), a non-null object (carried with its `JSON.stringify` text), or
      some other truthy value such as a number. */
  datatype ErrorPayload = NoPayload | TextPayload(text: string) | ObjectPayload(json: string) | OtherPayload

  /** A failed remote call: the server's payload and the transport-level `message`. */
  datatype HttpError = HttpError(error: ErrorPayload, message: Option<string>)

  /** What a remote call delivered to its subscriber: `next` with a value, or `error`. */
  datatype Reply<+T> = Succeeded(value: T) | Failed(err: HttpError)
}
