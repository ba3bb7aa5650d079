/**
 * The order admission step of the order service: build an order from the
 * request, ask the inventory service about its SKU codes inside a trace span,
 * and either save the order and publish an `OrderPlacedEvent`, or reject it.
 *
 * The collaborators are fields of `OrderService`: the order repository is the
 * sequence of saved orders, the Kafka template the sequence of sent messages,
 * the tracer a flag saying whether the last lookup span has been flushed.
 * Calls are modelled one at a time. A
 * ghost trace records every visible effect in the order it happens.
 */
module OrderService {
  import opened OrderModel

  const NotificationTopic: string := "notificationTopic"
  const InventoryLookupSpan: string := "InventoryServiceLookup"
  const PlacedMessage: string := "Order Placed Successfully"
  const NotInStockMessage: string := "product is not in stock, please try again later"

  /** What `placeOrder` does for its caller: returns a message, throws the
      not-in-stock exception, or lets the failure of the inventory call
      propagate. */
  datatype Outcome = Placed(msg: string) | NotInStock(reason: string) | InventoryFailed

  // ---------------------------------------------------------------------------
  // Line-item mapping

  /** Reads a persisted line item back as a request line; used to state that
      `MapToDto` loses nothing. */
  function ToDto(item: OrderLineItems): OrderLineItemsDto {
    OrderLineItemsDto(item.skuCode, item.price, item.quantity)
  }

  /** `mapToDto`: a fresh line item carrying the request line's fields. */
  function MapToDto(dto: OrderLineItemsDto): (item: OrderLineItems)
    ensures ToDto(item) == dto
  {
    OrderLineItems(dto.skuCode, dto.price, dto.quantity)
  }

  /** `stream().map(this::mapToDto).toList()` over the request lines. */
  function MapLineItems(dtos: seq<OrderLineItemsDto>): (items: seq<OrderLineItems>)
    ensures |items| == |dtos|
    ensures forall i :: 0 <= i < |dtos| ==>
      items[i].skuCode == dtos[i].skuCode && items[i].price == dtos[i].price &&
      items[i].quantity == dtos[i].quantity
  {
    if dtos == [] then [] else [MapToDto(dtos[0])] + MapLineItems(dtos[1..])
  }

  /** The inverse of `MapLineItems`, line by line. */
  function ToDtos(items: seq<OrderLineItems>): seq<OrderLineItemsDto> {
    if items == [] then [] else [ToDto(items[0])] + ToDtos(items[1..])
  }

  /** Mapping the request lines and reading them back gives the request lines:
      nothing is dropped, reordered or altered. */
  lemma {:induction false} MapLineItemsRoundTrip(dtos: seq<OrderLineItemsDto>)
    ensures ToDtos(MapLineItems(dtos)) == dtos
  {
    if dtos != [] {
      MapLineItemsRoundTrip(dtos[1..]);
      assert MapLineItems(dtos)[1..] == MapLineItems(dtos[1..]);
    }
  }

  /** The order built before the inventory lookup: it carries the fresh order
      number, and its line items read back as the request lines. */
  function BuildOrder(orderNumber: string, request: OrderRequest): (order: Order)
    ensures order.orderNumber == orderNumber
    ensures ToDtos(order.orderLineItemsList) == request.orderLineItemsDtoList
  {
    MapLineItemsRoundTrip(request.orderLineItemsDtoList);
    Order(orderNumber, MapLineItems(request.orderLineItemsDtoList))
  }

  // ---------------------------------------------------------------------------
  // SKU projection and the admission rule

  /** `stream().map(OrderLineItems::getSkuCode).toList()`: one code per line
      item, in order, duplicates kept. */
  function SkuCodes(items: seq<OrderLineItems>): (codes: seq<string>)
    ensures |codes| == |items|
    ensures forall i :: 0 <= i < |items| ==> codes[i] == items[i].skuCode
  {
    if items == [] then [] else [items[0].skuCode] + SkuCodes(items[1..])
  }

  /** The SKU codes of the request lines, one per line. */
  function RequestSkuCodes(lines: seq<OrderLineItemsDto>): seq<string> {
    if lines == [] then [] else [lines[0].skuCode] + RequestSkuCodes(lines[1..])
  }

  /** The SKU codes asked for are those of the request lines, line by line. */
  lemma {:induction false} SkuCodesOfRequest(lines: seq<OrderLineItemsDto>)
    ensures SkuCodes(MapLineItems(lines)) == RequestSkuCodes(lines)
  {
    if lines != [] {
      SkuCodesOfRequest(lines[1..]);
      assert MapLineItems(lines)[1..] == MapLineItems(lines[1..]);
    }
  }

  /** `Arrays.stream(responses).allMatch(InventoryResponse::isInStock)`. */
  function AllInStock(responses: seq<InventoryResponse>): (ok: bool)
    ensures ok <==> forall i :: 0 <= i < |responses| ==> responses[i].isInStock
  {
    responses == [] || (responses[0].isInStock && AllInStock(responses[1..]))
  }

  /** The literal rule admits on an empty answer, whatever was asked for. */
  lemma EmptyAnswerAdmits()
    ensures AllInStock([])
  {
  }

  /** Whether some entry of the answer is about `sku`. */
  function Reported(responses: seq<InventoryResponse>, sku: string): (found: bool)
    ensures found <==> exists j :: 0 <= j < |responses| && responses[j].skuCode == sku
  {
    responses != [] && (responses[0].skuCode == sku || Reported(responses[1..], sku))
  }

  /** A FAIL-CLOSED ALTERNATIVE, not used by `PlaceOrder`: every entry of the
      answer says "in stock" AND every requested SKU code has an entry. */
  function FailClosedAdmit(skuCodes: seq<string>, responses: seq<InventoryResponse>): (ok: bool)
    ensures ok <==> (AllInStock(responses) &&
      forall i :: 0 <= i < |skuCodes| ==> Reported(responses, skuCodes[i]))
  {
    if skuCodes == [] then AllInStock(responses)
    else Reported(responses, skuCodes[0]) && FailClosedAdmit(skuCodes[1..], responses)
  }

  /** The fail-closed rule never admits what the literal rule rejects, and the
      two agree whenever every requested SKU code is reported. */
  lemma FailClosedRefinesLiteral(skuCodes: seq<string>, responses: seq<InventoryResponse>)
    ensures FailClosedAdmit(skuCodes, responses) ==> AllInStock(responses)
    ensures (forall i :: 0 <= i < |skuCodes| ==> Reported(responses, skuCodes[i])) ==>
      (FailClosedAdmit(skuCodes, responses) <==> AllInStock(responses))
  {
  }

  /** Where the two rules part: asked about at least one SKU and given an empty
      answer, the literal rule admits and the fail-closed rule rejects. */
  lemma LiteralAdmitsUnreportedSku(skuCodes: seq<string>)
    requires skuCodes != []
    ensures AllInStock([]) && !FailClosedAdmit(skuCodes, [])
  {
  }

  // ---------------------------------------------------------------------------
  // Effects and their order

  /** A visible effect of `placeOrder`, in the order it happens. */
  datatype Effect =
    | SpanStarted(name: string)
    | InventoryQueried(skuCodes: seq<string>)
    | Saved(order: Order)
    | Sent(message: Message)
    | SpanFlushed(name: string)

  /** The effects of one call: start the span, query the inventory, save and
      send when admitted, flush the span on the way out in every case (a
      rejected call and a failed inventory call have the same effects). */
  function CallEffects(order: Order, admitted: bool): seq<Effect> {
    [SpanStarted(InventoryLookupSpan), InventoryQueried(SkuCodes(order.orderLineItemsList))]
    + (if admitted
       then [Saved(order), Sent(Message(NotificationTopic, OrderPlacedEvent(order.orderNumber)))]
       else [])
    + [SpanFlushed(InventoryLookupSpan)]
  }

  /** The orders a trace saved, in order. */
  function Saves(trace: seq<Effect>): seq<Order> {
    if trace == [] then []
    else (if trace[0].Saved? then [trace[0].order] else []) + Saves(trace[1..])
  }

  /** The messages a trace sent, in order. */
  function Sends(trace: seq<Effect>): seq<Message> {
    if trace == [] then []
    else (if trace[0].Sent? then [trace[0].message] else []) + Sends(trace[1..])
  }

  /** The orders saved by two stretches of a trace, one after the other. */
  lemma {:induction false} SavesAppend(a: seq<Effect>, b: seq<Effect>)
    ensures Saves(a + b) == Saves(a) + Saves(b)
  {
    if a == [] {
      assert a + b == b;
    } else {
      SavesAppend(a[1..], b);
      var head := if a[0].Saved? then [a[0].order] else [];
      calc {
        Saves(a + b);
        { assert (a + b)[0] == a[0]; assert (a + b)[1..] == a[1..] + b; }
        head + Saves(a[1..] + b);
        head + (Saves(a[1..]) + Saves(b));
        Saves(a) + Saves(b);
      }
    }
  }

  /** The messages sent by two stretches of a trace, one after the other. */
  lemma {:induction false} SendsAppend(a: seq<Effect>, b: seq<Effect>)
    ensures Sends(a + b) == Sends(a) + Sends(b)
  {
    if a == [] {
      assert a + b == b;
    } else {
      SendsAppend(a[1..], b);
      var head := if a[0].Sent? then [a[0].message] else [];
      calc {
        Sends(a + b);
        { assert (a + b)[0] == a[0]; assert (a + b)[1..] == a[1..] + b; }
        head + Sends(a[1..] + b);
        head + (Sends(a[1..]) + Sends(b));
        Sends(a) + Sends(b);
      }
    }
  }

  /** Every send comes straight after the save of the order it announces. */
  ghost predicate SendsFollowSaves(trace: seq<Effect>) {
    forall j :: 0 <= j < |trace| && trace[j].Sent? ==>
      0 < j && trace[j - 1].Saved? &&
      trace[j - 1].order.orderNumber == trace[j].message.event.orderNumber
  }

  /** Every span started in a trace is flushed before the next one starts, and
      no span is left unflushed at its end. */
  ghost predicate SpansFlushed(trace: seq<Effect>) {
    forall j :: 0 <= j < |trace| && trace[j].SpanStarted? ==>
      exists k :: (j < k < |trace| && trace[k] == SpanFlushed(trace[j].name) &&
        forall m :: j < m < k ==> !trace[m].SpanStarted?)
  }

  /** `Saves` and `Sends` of a single effect. */
  lemma SavesSendsSingle(e: Effect)
    ensures Saves([e]) == (if e.Saved? then [e.order] else [])
    ensures Sends([e]) == (if e.Sent? then [e.message] else [])
  {
  }

  /** What one call saves and sends: the order and its announcement on the
      notification topic when admitted, nothing otherwise. */
  lemma CallSavesAndSends(order: Order, admitted: bool)
    ensures Saves(CallEffects(order, admitted)) == (if admitted then [order] else [])
    ensures Sends(CallEffects(order, admitted)) ==
      (if admitted then [Message(NotificationTopic, OrderPlacedEvent(order.orderNumber))] else [])
  {
    var start, query := SpanStarted(InventoryLookupSpan), InventoryQueried(SkuCodes(order.orderLineItemsList));
    var save, send := Saved(order), Sent(Message(NotificationTopic, OrderPlacedEvent(order.orderNumber)));
    var flush := SpanFlushed(InventoryLookupSpan);
    var middle := if admitted then [save, send] else [];
    assert CallEffects(order, admitted) == [start, query] + middle + [flush];
    SavesAppend([start, query] + middle, [flush]);
    SendsAppend([start, query] + middle, [flush]);
    SavesAppend([start, query], middle);
    SendsAppend([start, query], middle);
    SavesAppend([start], [query]);
    SendsAppend([start], [query]);
    assert [start, query] == [start] + [query];
    SavesSendsSingle(start);
    SavesSendsSingle(query);
    SavesSendsSingle(flush);
    if admitted {
      assert middle == [save] + [send];
      SavesAppend([save], [send]);
      SendsAppend([save], [send]);
      SavesSendsSingle(save);
      SavesSendsSingle(send);
    }
  }

  /** Within one call, the send comes straight after the save of the order it
      announces, and the lookup span is flushed after it was started. */
  lemma CallOrdering(order: Order, admitted: bool)
    ensures SendsFollowSaves(CallEffects(order, admitted))
    ensures SpansFlushed(CallEffects(order, admitted))
  {
    var c := CallEffects(order, admitted);
    assert c[|c| - 1] == SpanFlushed(InventoryLookupSpan);
    assert forall j :: 0 < j < |c| ==> !c[j].SpanStarted?;
  }

  /** Appending the effects of one more call keeps both ordering properties. */
  lemma AppendCallKeepsOrdering(trace: seq<Effect>, order: Order, admitted: bool)
    requires SendsFollowSaves(trace) && SpansFlushed(trace)
    ensures SendsFollowSaves(trace + CallEffects(order, admitted))
    ensures SpansFlushed(trace + CallEffects(order, admitted))
  {
    var c := CallEffects(order, admitted);
    CallOrdering(order, admitted);
    var t := trace + c;
    forall j | 0 <= j < |t| && t[j].Sent?
      ensures 0 < j && t[j - 1].Saved? &&
        t[j - 1].order.orderNumber == t[j].message.event.orderNumber
    {
      if j < |trace| {
        assert t[j] == trace[j];
      } else {
        assert t[j] == c[j - |trace|];
        assert t[j - 1] == c[j - |trace| - 1];
      }
    }
    forall j | 0 <= j < |t| && t[j].SpanStarted?
      ensures exists k :: (j < k < |t| && t[k] == SpanFlushed(t[j].name) &&
        forall m :: j < m < k ==> !t[m].SpanStarted?)
    {
      if j < |trace| {
        assert t[j] == trace[j];
        var k :| j < k < |trace| && trace[k] == SpanFlushed(trace[j].name) &&
          forall m :: j < m < k ==> !trace[m].SpanStarted?;
        assert t[k] == trace[k];
        assert forall m :: j < m < k ==> t[m] == trace[m];
      } else {
        var j' := j - |trace|;
        assert t[j] == c[j'];
        var k' :| j' < k' < |c| && c[k'] == SpanFlushed(c[j'].name) &&
          forall m :: j' < m < k' ==> !c[m].SpanStarted?;
        assert t[|trace| + k'] == c[k'];
        assert forall m :: j < m < |trace| + k' ==> t[m] == c[m - |trace|];
      }
    }
  }

  // ---------------------------------------------------------------------------
  // The service

  /** Saved order i is announced by sent message i, on the notification topic. */
  ghost predicate EventsMatchOrders(saved: seq<Order>, sent: seq<Message>) {
    |sent| == |saved| &&
    forall i :: 0 <= i < |saved| ==>
      sent[i] == Message(NotificationTopic, OrderPlacedEvent(saved[i].orderNumber))
  }

  /** The service's invariant over its collaborators' state and its history:
      the repository and the broker hold exactly what the history saved and
      sent, saved order i is announced by message i, every send follows the
      save it announces, and no span is left unflushed. */
  ghost predicate Invariant(saved: seq<Order>, sent: seq<Message>, trace: seq<Effect>) {
    saved == Saves(trace) && sent == Sends(trace) && EventsMatchOrders(saved, sent) &&
    SendsFollowSaves(trace) && SpansFlushed(trace)
  }

  /** One more call keeps the invariant. */
  lemma CallKeepsInvariant(saved: seq<Order>, sent: seq<Message>, trace: seq<Effect>,
                           order: Order, admitted: bool)
    requires Invariant(saved, sent, trace)
    ensures var c := CallEffects(order, admitted);
      Invariant(saved + Saves(c), sent + Sends(c), trace + c)
  {
    var c := CallEffects(order, admitted);
    CallSavesAndSends(order, admitted);
    SavesAppend(trace, c);
    SendsAppend(trace, c);
    AppendCallKeepsOrdering(trace, order, admitted);
    var saved', sent' := saved + Saves(c), sent + Sends(c);
    forall i | 0 <= i < |saved'|
      ensures sent'[i] == Message(NotificationTopic, OrderPlacedEvent(saved'[i].orderNumber))
    {
      if i < |saved| {
        assert saved'[i] == saved[i] && sent'[i] == sent[i];
      }
    }
  }

  class OrderService {
    /** The order repository: every order saved, in order. */
    var savedOrders: seq<Order>
    /** The Kafka template: every message sent, in order. */
    var sentEvents: seq<Message>
    /** Whether the most recent inventory-lookup span has been flushed. */
    var spanFlushed: bool
    /** Every effect so far, in the order it happened. */
    ghost var trace: seq<Effect>

    ghost predicate Valid()
      reads this
    {
      Invariant(savedOrders, sentEvents, trace)
    }

    /** A service whose collaborators have seen nothing yet. */
    constructor ()
      ensures Valid() && spanFlushed
      ensures savedOrders == [] && sentEvents == [] && trace == []
    {
      savedOrders, sentEvents, spanFlushed := [], [], true;
      trace := [];
    }

    /** `placeOrder`. The order number `freshId` and the inventory service's
        answer come from outside: they are the UUID generator's and the HTTP
        call's results. `None` stands for a call that throws (an error status,
        an unreachable service) or returns no array. */
    method PlaceOrder(request: OrderRequest, freshId: string, answer: Option<seq<InventoryResponse>>)
      returns (outcome: Outcome)
      requires Valid()
      modifies this
      ensures Valid()
      // a failed call propagates; otherwise admitted exactly when every entry says "in stock"
      ensures outcome.InventoryFailed? <==> answer.None?
      ensures outcome.Placed? <==> (answer.Some? &&
        forall i :: 0 <= i < |answer.value| ==> answer.value[i].isInStock)
      ensures outcome.Placed? ==>
        && outcome.msg == PlacedMessage
        && savedOrders == old(savedOrders) + [BuildOrder(freshId, request)]
        && sentEvents == old(sentEvents) + [Message(NotificationTopic, OrderPlacedEvent(freshId))]
      ensures outcome.NotInStock? ==> outcome.reason == NotInStockMessage
      ensures !outcome.Placed? ==> savedOrders == old(savedOrders) && sentEvents == old(sentEvents)
      // the effects of this call, in order, ending with the span flush on every path
      ensures trace == old(trace) + CallEffects(BuildOrder(freshId, request), outcome.Placed?)
      ensures spanFlushed
    {
      var order := Order(freshId, []);
      var orderLineItemsList := MapLineItems(request.orderLineItemsDtoList);
      order := order.(orderLineItemsList := orderLineItemsList);
      var skuCodes := SkuCodes(order.orderLineItemsList);

      ghost var before := trace;
      spanFlushed := false;
      trace := trace + [SpanStarted(InventoryLookupSpan), InventoryQueried(skuCodes)];

      var allProductInStock := false;
      if answer.None? {
        outcome := InventoryFailed;
      } else {
        allProductInStock := AllInStock(answer.value);
        if allProductInStock {
          savedOrders := savedOrders + [order];
          trace := trace + [Saved(order)];
          sentEvents := sentEvents + [Message(NotificationTopic, OrderPlacedEvent(order.orderNumber))];
          trace := trace + [Sent(Message(NotificationTopic, OrderPlacedEvent(order.orderNumber)))];
          outcome := Placed(PlacedMessage);
        } else {
          outcome := NotInStock(NotInStockMessage);
        }
      }

      spanFlushed := true;
      trace := trace + [SpanFlushed(InventoryLookupSpan)];

      assert trace == before + CallEffects(order, allProductInStock);
      CallSavesAndSends(order, allProductInStock);
      CallKeepsInvariant(old(savedOrders), old(sentEvents), before, order, allProductInStock);
    }
  }

  /** The two-line request used by the scenarios below. */
  function TwoLineRequest(): OrderRequest {
    OrderRequest([
      OrderLineItemsDto("A", Decimal(150, 2), 2),
      OrderLineItemsDto("B", Decimal(999, 2), 1)])
  }

  /** One SKU reported out of stock: rejected, nothing saved or sent. */
  method ScenarioOutOfStock() {
    var service := new OrderService();
    var answer := [InventoryResponse("A", true), InventoryResponse("B", false)];
    var outcome := service.PlaceOrder(TwoLineRequest(), "id-1", Some(answer));
    assert !answer[1].isInStock;
    assert outcome.NotInStock? && service.savedOrders == [] && service.sentEvents == [];
  }

  /** Both SKUs in stock: one order with both lines saved, one event sent. */
  method ScenarioInStock() {
    var service := new OrderService();
    var answer := [InventoryResponse("A", true), InventoryResponse("B", true)];
    var outcome := service.PlaceOrder(TwoLineRequest(), "id-2", Some(answer));
    assert outcome.Placed? && |service.savedOrders| == 1;
    assert |service.savedOrders[0].orderLineItemsList| == 2;
    assert service.sentEvents == [Message(NotificationTopic, OrderPlacedEvent("id-2"))];
  }

  /** An empty inventory answer admits the order. */
  method ScenarioEmptyAnswer() {
    var service := new OrderService();
    var outcome := service.PlaceOrder(TwoLineRequest(), "id-3", Some([]));
    assert outcome.Placed? && |service.savedOrders| == 1;
  }

  /** The inventory call fails: the failure propagates, nothing is saved or
      sent, and the span is still flushed. */
  method ScenarioInventoryDown() {
    var service := new OrderService();
    var outcome := service.PlaceOrder(TwoLineRequest(), "id-4", None);
    assert outcome.InventoryFailed? && service.savedOrders == [] && service.sentEvents == [];
    assert service.spanFlushed;
  }
}
