# Order admission in the order service

This project models the order admission step of the order service, `OrderService.placeOrder`, together with its line-item mapper `mapToDto`. Given an order request, the service:

1. builds an `Order` under a freshly generated order number;
2. copies each request line (SKU code, price, quantity) into an `OrderLineItems`;
3. projects the SKU codes of those line items, one per line item, in order;
4. asks the inventory service about them inside the trace span `InventoryServiceLookup`;
5. admits the order when every entry of the inventory answer says "in stock";
6. if it admits the order, saves it, sends an `OrderPlacedEvent` carrying the order number on `notificationTopic`, and returns `"Order Placed Successfully"`;
7. otherwise fails with "product is not in stock, please try again later" and saves or sends nothing;
8. if the inventory call itself fails, lets that failure propagate, with nothing saved or sent;
9. flushes the span on every path.

`OrderModel.dfy` holds the values: the request and its line DTOs, the order and its line items, the inventory answer, the event and the broker message. `BigDecimal` prices are `Decimal(unscaled, scale)` and are only copied. `OrderService.dfy` holds the rest:

- The stream pipelines are functions: `MapLineItems`, `SkuCodes` and `AllInStock`.
- `placeOrder` is the method `OrderService.PlaceOrder` of a class whose fields stand for the collaborators:
  - `savedOrders` is the order repository;
  - `sentEvents` is the Kafka template;
  - `spanFlushed` is the tracer's span state.
- A ghost `trace` of `Effect`s records every visible effect in the order it happens.
- Calls are modelled one at a time.
- The class invariant `Valid` (built on `Invariant`) says four things:
  - the repository and the broker are exactly the saves and sends in the trace;
  - saved order i is announced by sent message i;
  - every send comes straight after the save of the order it announces;
  - every span started is flushed before the next one starts.

The generated UUID and the inventory service's answer are parameters of `PlaceOrder` (`freshId`, `answer`). The answer is `None` when the HTTP call throws or returns no array. The result datatype `Outcome` has three alternatives:

- `Placed` is the success message;
- `NotInStock` is the thrown `IllegalArgumentException`;
- `InventoryFailed` is the propagated failure of the inventory call.

The model follows the code as written in these points:

- There is no check that the request has at least one line item. An empty request gets an empty SKU list, and the order is admitted or rejected on the answer alone.
- SKU codes are not deduplicated. The list sent to the inventory service has one entry per line item.
- Admission looks only at the entries the inventory service returned (`allMatch`). An empty answer admits the order, and so does an answer that leaves out a requested SKU.
- A fail-closed rule, under which a requested SKU missing from the answer counts as not in stock, is not in the code. It is given as the separate function `FailClosedAdmit`, which `PlaceOrder` does not use. `FailClosedRefinesLiteral` and `LiteralAdmitsUnreportedSku` relate it to the literal rule.
- On success the method returns a fixed message, not a confirmation holding the order number.

## Model

| member | source | states |
|---|---|---|
| `OrderService.MapToDto` | order-service/src/main/java/com/bangkitanom/order/service/OrderService.java:75-81 | the new line item reads back as the request line it came from: SKU code, price and quantity are copied unchanged |
| `OrderService.MapLineItems` | order-service/src/main/java/com/bangkitanom/order/service/OrderService.java:38-40 | the mapped list has as many items as the request has lines, and item i carries line i's SKU code, price and quantity |
| `OrderService.MapLineItemsRoundTrip` | order-service/src/main/java/com/bangkitanom/order/service/OrderService.java:38-40 | reading the mapped items back gives exactly the request lines: nothing dropped, reordered or altered |
| `OrderService.BuildOrder` | order-service/src/main/java/com/bangkitanom/order/service/OrderService.java:35-40 | the order built before the lookup carries the fresh order number, and its line items read back exactly as the request lines |
| `OrderService.SkuCodes` | order-service/src/main/java/com/bangkitanom/order/service/OrderService.java:42-44 | one SKU code per line item, in order: the list is as long as the item list, and duplicates are kept |
| `OrderService.SkuCodesOfRequest` | order-service/src/main/java/com/bangkitanom/order/service/OrderService.java:38-44 | the SKU codes asked about are the request lines' SKU codes, line by line |
| `OrderService.AllInStock` | order-service/src/main/java/com/bangkitanom/order/service/OrderService.java:58-59 | true exactly when every entry of the inventory answer says "in stock" |
| `OrderService.EmptyAnswerAdmits` | order-service/src/main/java/com/bangkitanom/order/service/OrderService.java:58-59 | an empty inventory answer passes the admission rule |
| `OrderService.Reported` | order-service/src/main/java/com/bangkitanom/order/service/OrderService.java:51-59 | true exactly when some entry of the answer is about the given SKU code (used only by the fail-closed alternative) |
| `OrderService.FailClosedAdmit` | order-service/src/main/java/com/bangkitanom/order/service/OrderService.java:58-59 | fail-closed alternative to the literal rule, not used by `PlaceOrder`: true exactly when every entry says "in stock" and every requested SKU code has an entry |
| `OrderService.FailClosedRefinesLiteral` | order-service/src/main/java/com/bangkitanom/order/service/OrderService.java:58-62 | the fail-closed rule never admits what the literal rule rejects; the two agree whenever every requested SKU is reported |
| `OrderService.LiteralAdmitsUnreportedSku` | order-service/src/main/java/com/bangkitanom/order/service/OrderService.java:58-62 | given any non-empty SKU list and an empty answer, the literal rule admits and the fail-closed rule rejects |
| `OrderService.CallSavesAndSends` | order-service/src/main/java/com/bangkitanom/order/service/OrderService.java:62-67 | one call saves exactly its order and sends exactly its `OrderPlacedEvent` on `notificationTopic` when admitted, and saves and sends nothing when rejected |
| `OrderService.CallOrdering` | order-service/src/main/java/com/bangkitanom/order/service/OrderService.java:47-71 | within one call the send comes straight after the save of the order it announces, and the lookup span is flushed after it starts, on every path |
| `OrderService.CallKeepsInvariant` | order-service/src/main/java/com/bangkitanom/order/service/OrderService.java:62-71 | after one more call the repository and broker still hold exactly what the history saved and sent, saved order i is still announced by message i, sends still follow their saves, and no span is left unflushed |
| `OrderService.AppendCallKeepsOrdering` | order-service/src/main/java/com/bangkitanom/order/service/OrderService.java:47-71 | adding one more call's effects to a history keeps "every send straight after its save" and "every span flushed" |
| `OrderService.OrderService.constructor` | order-service/src/main/java/com/bangkitanom/order/service/OrderService.java:25-32 | a service whose repository, broker and effect history are empty, satisfying the invariant |
| `OrderService.OrderService.PlaceOrder` | order-service/src/main/java/com/bangkitanom/order/service/OrderService.java:34-73 | a failed inventory call gives `InventoryFailed`. Otherwise the order is admitted iff every inventory entry says "in stock", so an empty answer admits, whatever was requested. On admission: exactly `BuildOrder`'s order (fresh number, mapped lines) is appended to the saved orders, exactly one event with that number is appended on `notificationTopic`, and the result is "Order Placed Successfully". On rejection or a failed call: saved orders and sent events are unchanged, and a rejection carries the not-in-stock message. The effects of the call are `CallEffects`: span start, inventory query, save, send (if admitted), span flush, in that order. The span is flushed and the invariant is kept on every path |

## Left out

- The HTTP call to the inventory service (URI building, `retrieve`, `block`) is I/O. Its result is the parameter `answer`. Every way the call can fail collapses into `None`, with no distinction between an error status, an unreachable service and a `null` array.
- A `null` entry inside the answer is not modelled. In the code, `allMatch` throws a `NullPointerException` on reaching it, unless an earlier entry already said "not in stock". The failure then propagates like a failed call: nothing is saved or sent, and the span is flushed.
- `UUID.randomUUID()` is randomness. The order number is the parameter `freshId`, so the model says nothing about collisions.
- JPA persistence, `@Transactional` rollback and Kafka delivery are foreign library calls. They appear only as appends to `savedOrders` and `sentEvents`. A failing save or send is not modelled.
- CallKeepsInvariant (and the class invariant `Valid` it maintains) models calls one at a time. The service is a singleton serving concurrent requests, and other instances may share the database and the topic. Under concurrent requests, two admitted calls can interleave as save(a), save(b), send(b), send(a). In that case "saved order i is announced by message i" and "every send comes straight after its save" hold only within each call (`CallOrdering`, `CallSavesAndSends`), not across the shared history.
- A `Saved` effect stands for the `save` call, not for durable storage. Under the class-level `@Transactional`, the save commits only when `placeOrder` returns, which is after the send.
- Brave tracer and span internals are left out except the started and flushed events and the `spanFlushed` flag.
- Logging (`log.info`) and `System.out.println` are output only.
- JPA `id` columns and Java `null` field values are left out. Every field always holds a value.
- `BigDecimal` arithmetic does not happen in this code. Prices are copied as `Decimal` values.
- The `InventoryResponse`, `OrderLineItemsDto`, `OrderRequest`, `Order` and `OrderPlacedEvent` classes are not part of this model. Their fields are taken from how `OrderService.java` uses them, and `skuCode` on `InventoryResponse` is taken from the inventory entity.
- Timeouts, cancellation, retries, request validation, and separate error kinds for invalid requests, storage failures and publish failures do not exist in the code, so they are not modelled.
- The product controller and the product repository are HTTP routing and an empty Spring Data interface, with no logic to model.

