/**
 * The order record the server persists as `{id}.json` and every renderer reads,
 * and the table of detail fields those renderers show.
 */
module OrderData {
  import opened Wrappers
  import opened Js

  /** One persisted order. `fileUrl`, `fileName` and `details` are whatever the
      client sent (the server checks only that `fileUrl` and `details` are truthy). */
  datatype Order = Order(
    id: string,
    fileUrl: Json,
    fileName: Json,
    details: Json,
    orderUrl: string,
    createdAt: string)

  /** The detail fields shown by the plain-text message, the e-mail table and the
      order page, in display order, as (label, key in `details`). */
  const DetailFields: seq<(string, string)> := [
    ("Name", "name"),
    ("Phone", "phone"),
    ("Address", "address"),
    ("Brand", "brandName"),
    ("Brand link", "brandWebsite"),
    ("Brand social", "brandSocial"),
    ("Quantity", "quantity"),
    ("Shape", "shape"),
    ("Technique", "technique"),
    ("Embroidery", "embroidery"),
    ("Size", "size"),
    ("Color", "color"),
    ("Notes", "notes")
  ]

  /** `order.details || {}`. */
  function DetailsOf(order: Order): Json {
    if Truthy(order.details) then order.details else JObj(map[])
  }

  /** `details[key]`, `undefined` when the bag has no such field. */
  function Detail(order: Order, key: string): Option<Json> {
    Get(DetailsOf(order), key)
  }
}
