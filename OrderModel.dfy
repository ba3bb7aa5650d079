/**
 * Values handled by the order service: the incoming request and its line-item
 * DTOs, the persisted order and its line items, the inventory service's
 * answer, and the event published once an order is placed.
 *
 * JPA identity columns (`id`) and Java `null` references are not modelled:
 * every field here always holds a value.
 */
module OrderModel {

  /** A value that may be absent. */
  datatype Option<T> = None | Some(value: T)

  /** A `java.math.BigDecimal`: unscaled value times ten to the minus scale.
      The service never computes with prices; it only copies them. */
  datatype Decimal = Decimal(unscaled: int, scale: int)

  /** One line of an incoming order request. */
  datatype OrderLineItemsDto = OrderLineItemsDto(skuCode: string, price: Decimal, quantity: int)

  /** The request body of "place an order". */
  datatype OrderRequest = OrderRequest(orderLineItemsDtoList: seq<OrderLineItemsDto>)

  /** A persisted line item (entity `order_line_items`). */
  datatype OrderLineItems = OrderLineItems(skuCode: string, price: Decimal, quantity: int)

  /** A persisted order: its generated order number and its line items, in request order. */
  datatype Order = Order(orderNumber: string, orderLineItemsList: seq<OrderLineItems>)

  /** One entry of the inventory service's answer. The call itself may fail;
      see `PlaceOrder`, which takes the answer as an `Option`. */
  datatype InventoryResponse = InventoryResponse(skuCode: string, isInStock: bool)

  /** The domain event announcing a placed order. */
  datatype OrderPlacedEvent = OrderPlacedEvent(orderNumber: string)

  /** A record handed to the message broker: a topic and the event sent on it. */
  datatype Message = Message(topic: string, event: OrderPlacedEvent)
}
