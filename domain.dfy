/** The records the controllers read besides products: users (set on the
    request by the authentication middleware) and orders. The schemas in
    model files under models/ are not part of this model; the fields below are the ones
    the controllers touch. */
module Domain {

  /** Stand-ins for MongoDB ObjectIds: opaque, compared for equality only. */
  type ProductId = nat
  type UserId = nat

  datatype User = User(id: UserId, name: string, role: string)

  datatype OrderItem = OrderItem(product: ProductId)

  /** `createdAt` is a timestamp in milliseconds since the epoch. */
  datatype Order = Order(
    id: nat,
    user: UserId,
    orderItems: seq<OrderItem>,
    totalPrice: real,
    isPaid: bool,
    isDelivered: bool,
    createdAt: int)
}
