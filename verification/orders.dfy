/**
 * `POST /orders` and `GET /orders/:id`: validating and storing an order, and
 * serving its HTML page. The orders directory is a map from order id to the
 * stored record; the clock, the random id suffix and the timestamp are
 * parameters.
 */
module Orders {
  import opened Wrappers
  import opened Strings
  import opened Js
  import opened OrderData
  import opened Render

  /** The orders directory: order id to the record stored as `<id>.json`. */
  type Store = map<string, Order>

  datatype OrderReply = OrderCreated(id: string, url: string) | OrderRejected(status: nat, error: string)

  /** `req.body || {}`. */
  function BodyOrEmpty(body: Json): Json {
    if Truthy(body) then body else JObj(map[])
  }

  /** The id of an order created at `nowMs` with the given random suffix. */
  function OrderId(nowMs: nat, randomSuffix: string): string {
    NatToString(nowMs) + "-" + randomSuffix
  }

  /** `POST /orders`: refuses a request without a truthy `fileUrl` and
      `details`; otherwise stores a new order under a fresh id and answers
      with the id and the order page URL. Returns the reply and the store. */
  function CreateOrder(body: Json, nowMs: nat, randomSuffix: string, isoNow: string, publicBase: string,
                       store: Store): (r: (OrderReply, Store))
  {
    var b := BodyOrEmpty(body);
    var fileUrl := Get(b, "fileUrl");
    var details := Get(b, "details");
    if !Present(fileUrl) || !Present(details) then (OrderRejected(400, "Missing order data"), store)
    else
      var id := OrderId(nowMs, randomSuffix);
      var orderUrl := publicBase + "/orders/" + id;
      var order := Order(id, fileUrl.value, OrJson(Get(b, "fileName"), JStr("")), details.value, orderUrl, isoNow);
      (OrderCreated(id, orderUrl), store[id := order])
  }

  /** What `POST /orders` does: a request missing either field is refused and
      nothing is written; otherwise exactly one record is written, under an id
      made of the clock reading and the suffix, holding the request's fields
      (the file name defaulting to empty), and the reply points at its page. */
  lemma CreateOrderContract(body: Json, nowMs: nat, randomSuffix: string, isoNow: string, publicBase: string,
                            store: Store)
    ensures var (reply, store1) := CreateOrder(body, nowMs, randomSuffix, isoNow, publicBase, store);
            var b := BodyOrEmpty(body);
            !(Present(Get(b, "fileUrl")) && Present(Get(b, "details"))) <==>
              reply == OrderRejected(400, "Missing order data")
    ensures var (reply, store1) := CreateOrder(body, nowMs, randomSuffix, isoNow, publicBase, store);
            reply.OrderRejected? ==> store1 == store
    ensures var (reply, store1) := CreateOrder(body, nowMs, randomSuffix, isoNow, publicBase, store);
            var b := BodyOrEmpty(body);
            reply.OrderCreated? ==>
              && reply.id == OrderId(nowMs, randomSuffix)
              && reply.url == publicBase + "/orders/" + reply.id
              && store1.Keys == store.Keys + {reply.id}
              && (forall k :: k in store && k != reply.id ==> store1[k] == store[k])
              && var order := store1[reply.id];
                 && order.id == reply.id && order.orderUrl == reply.url && order.createdAt == isoNow
                 && Some(order.fileUrl) == Get(b, "fileUrl") && Truthy(order.fileUrl)
                 && Some(order.details) == Get(b, "details") && Truthy(order.details)
                 && order.fileName == (if Present(Get(b, "fileName")) then Get(b, "fileName").value else JStr(""))
  {
  }

  /** The id starts with the clock reading in decimal followed by `-`, so
      orders created at different milliseconds never share an id. */
  lemma OrderIdsDifferAcrossTime(t1: nat, s1: string, t2: nat, s2: string)
    requires t1 != t2
    requires '-' !in s1 && '-' !in s2
    ensures OrderId(t1, s1) != OrderId(t2, s2)
  {
    if OrderId(t1, s1) == OrderId(t2, s2) {
      var a := NatToString(t1);
      var b := NatToString(t2);
      var x := OrderId(t1, s1);
      assert x[|a|] == '-' && x[|b|] == '-';
      assert forall i :: 0 <= i < |a| ==> x[i] == a[i];
      assert forall i :: 0 <= i < |b| ==> x[i] == b[i];
      assert |a| == |b|;
      assert a == x[..|a|] == b;
      NatToStringInjective(t1, t2);
    }
  }

  datatype PageReply = PageNotFound(status: nat, text: string) | PageFound(html: string)

  /** `GET /orders/:id`: 404 for an unknown id, otherwise the order's page. */
  function ViewOrder(id: string, store: Store): (r: PageReply)
    ensures r.PageNotFound? <==> id !in store
    ensures r.PageNotFound? ==> r == PageNotFound(404, "Order not found")
  {
    if id !in store then PageNotFound(404, "Order not found")
    else PageFound(OrderPageHtml(store[id]))
  }

  /** Creating an order and then opening its page shows every detail field
      of the request under its label, with angle brackets removed. */
  lemma CreatedOrderPageShowsDetails(body: Json, nowMs: nat, randomSuffix: string, isoNow: string,
                                     publicBase: string, store: Store, k: nat)
    requires k < 13
    requires CreateOrder(body, nowMs, randomSuffix, isoNow, publicBase, store).0.OrderCreated?
    ensures var (reply, store1) := CreateOrder(body, nowMs, randomSuffix, isoNow, publicBase, store);
            var details := Get(BodyOrEmpty(body), "details").value;
            var page := ViewOrder(reply.id, store1);
            && page.PageFound?
            && Contains(page.html, PageRowOpen(DetailFields[k].0) + Safe(Get(details, DetailFields[k].1)))
  {
    var (reply, store1) := CreateOrder(body, nowMs, randomSuffix, isoNow, publicBase, store);
    var order := store1[reply.id];
    OrderPageShowsDetail(order, k);
  }
}
