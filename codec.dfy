/**
 * The bytes bincode's derived `Encode`/`Decode` produce and accept for the
 * purchase records: struct fields and tuple elements in declaration order, so
 * a product tree is written in pre-order (its own scalar fields, then its
 * optional sub-products, then its optional add-ons). A `Vec` is its length as
 * a `u64` varint followed by its elements.
 */
module Codec {
  import opened Wrappers
  import opened Wire
  import opened Purchases

  // ================================================================ encoding

  function EncodeDate(d: Date): seq<Byte> {
    EncodeU8(d.month) + EncodeU8(d.day) + EncodeU64(d.year)
  }

  /** The four scalar fields that open a product's encoding. */
  function EncodeProductHead(p: Product): seq<Byte>
    requires TextFits(p.name) && TextFits(p.desc)
  {
    EncodeBytes(p.name) + EncodeBytes(p.desc) + EncodeU64(p.basePrice) + EncodeU64(p.stickerPrice)
  }

  function EncodeProduct(p: Product): seq<Byte>
    requires ProductFits(p)
  {
    EncodeProductHead(p) + EncodeItems(p.items) + EncodeAddOns(p.addOns)
  }

  function EncodeItems(o: Option<ProductVec>): seq<Byte>
    requires ItemsFit(o)
  {
    match o
    case None => EncodeTag(false)
    case Some(v) => EncodeTag(true) + EncodeU64(|v.elems|) + EncodeProductSeq(v.elems)
  }

  function EncodeProductSeq(ps: seq<Product>): seq<Byte>
    requires ProductSeqFits(ps)
  {
    if ps == [] then [] else EncodeProduct(ps[0]) + EncodeProductSeq(ps[1..])
  }

  function EncodeAddOns(o: Option<AddOnVec>): seq<Byte>
    requires AddOnsFit(o)
  {
    match o
    case None => EncodeTag(false)
    case Some(v) => EncodeTag(true) + EncodeU64(|v.elems|) + EncodeAddOnSeq(v.elems)
  }

  function EncodeAddOnSeq(addOns: seq<AddOn>): seq<Byte>
    requires AddOnSeqFits(addOns)
  {
    if addOns == [] then [] else EncodeAddOn(addOns[0]) + EncodeAddOnSeq(addOns[1..])
  }

  /** The four scalar fields that open an add-on's encoding. */
  function EncodeAddOnHead(a: AddOn): seq<Byte>
    requires TextFits(a.name) && TextFits(a.desc)
  {
    EncodeBytes(a.name) + EncodeBytes(a.desc) + EncodeU64(a.stickerPrice) + EncodeU64(a.actualPrice)
  }

  function EncodeAddOn(a: AddOn): seq<Byte>
    requires AddOnFits(a)
  {
    EncodeAddOnHead(a) + EncodeAssoc(a.assocProduct)
  }

  function EncodeAssoc(o: Option<Product>): seq<Byte>
    requires o.Some? ==> ProductFits(o.value)
  {
    match o
    case None => EncodeTag(false)
    case Some(p) => EncodeTag(true) + EncodeProduct(p)
  }

  /** A `(Product, u64)` tuple: the product, then the amount paid. */
  function EncodeLineItem(item: LineItem): seq<Byte>
    requires ProductFits(item.0)
  {
    EncodeProduct(item.0) + EncodeU64(item.1)
  }

  function EncodeLineItems(items: seq<LineItem>): seq<Byte>
    requires LineItemsFit(items)
  {
    if items == [] then [] else EncodeLineItem(items[0]) + EncodeLineItems(items[1..])
  }

  function EncodeOrder(o: Order): seq<Byte>
    requires OrderFits(o)
  {
    EncodeDate(o.datePlaced) + EncodeDate(o.dateShipped)
    + EncodeU64(o.subtotal) + EncodeU64(o.total)
    + EncodeU64(|o.products|) + EncodeLineItems(o.products)
    + EncodeBytes(o.notes)
  }

  function EncodeOrderSeq(os: seq<Order>): seq<Byte>
    requires OrderSeqFits(os)
  {
    if os == [] then [] else EncodeOrder(os[0]) + EncodeOrderSeq(os[1..])
  }

  /** What `encode_into_std_write` writes for a `Vec<Order>`. */
  function EncodeOrders(os: seq<Order>): seq<Byte>
    requires StoreFits(os)
  {
    EncodeU64(|os|) + EncodeOrderSeq(os)
  }

  // ================================================================ decoding
  //
  // Each decoder consumes at least one byte, which is what makes the mutual
  // recursion terminate; a sequence decoder for `n` elements may consume
  // nothing only when `n` is 0. Whatever a decoder returns fits again.

  function DecodeDate(s: seq<Byte>): (r: Option<Decoded<Date>>)
    ensures r.Some? ==> |r.value.rest| < |s|
  {
    var month :- DecodeU8(s);
    var day :- DecodeU8(month.rest);
    var year :- DecodeU64(day.rest);
    Some(Decoded(Date(month.value, day.value, year.value), year.rest))
  }

  function DecodeProduct(s: seq<Byte>): (r: Option<Decoded<Product>>)
    ensures r.Some? ==> |r.value.rest| < |s| && ProductFits(r.value.value)
    decreases |s|, 1
  {
    var name :- DecodeBytes(s);
    var desc :- DecodeBytes(name.rest);
    var base :- DecodeU64(desc.rest);
    var sticker :- DecodeU64(base.rest);
    var items :- DecodeItems(sticker.rest);
    var addOns :- DecodeAddOns(items.rest);
    Some(Decoded(Product(name.value, desc.value, base.value, sticker.value, items.value, addOns.value),
                 addOns.rest))
  }

  function DecodeItems(s: seq<Byte>): (r: Option<Decoded<Option<ProductVec>>>)
    ensures r.Some? ==> |r.value.rest| < |s| && ItemsFit(r.value.value)
    decreases |s|, 0
  {
    var tag :- DecodeTag(s);
    if !tag.value then Some(Decoded(None, tag.rest))
    else
      var len :- DecodeU64(tag.rest);
      var ps :- DecodeProductSeq(len.rest, len.value);
      Some(Decoded(Some(ProductVec(ps.value)), ps.rest))
  }

  function DecodeProductSeq(s: seq<Byte>, n: nat): (r: Option<Decoded<seq<Product>>>)
    ensures r.Some? ==> |r.value.rest| <= |s| && |r.value.value| == n && ProductSeqFits(r.value.value)
    decreases |s|, 2
  {
    if n == 0 then Some(Decoded([], s))
    else
      var first :- DecodeProduct(s);
      var others :- DecodeProductSeq(first.rest, n - 1);
      assert ([first.value] + others.value)[1..] == others.value;
      Some(Decoded([first.value] + others.value, others.rest))
  }

  function DecodeAddOns(s: seq<Byte>): (r: Option<Decoded<Option<AddOnVec>>>)
    ensures r.Some? ==> |r.value.rest| < |s| && AddOnsFit(r.value.value)
    decreases |s|, 0
  {
    var tag :- DecodeTag(s);
    if !tag.value then Some(Decoded(None, tag.rest))
    else
      var len :- DecodeU64(tag.rest);
      var addOns :- DecodeAddOnSeq(len.rest, len.value);
      Some(Decoded(Some(AddOnVec(addOns.value)), addOns.rest))
  }

  function DecodeAddOnSeq(s: seq<Byte>, n: nat): (r: Option<Decoded<seq<AddOn>>>)
    ensures r.Some? ==> |r.value.rest| <= |s| && |r.value.value| == n && AddOnSeqFits(r.value.value)
    decreases |s|, 2
  {
    if n == 0 then Some(Decoded([], s))
    else
      var first :- DecodeAddOn(s);
      var others :- DecodeAddOnSeq(first.rest, n - 1);
      assert ([first.value] + others.value)[1..] == others.value;
      Some(Decoded([first.value] + others.value, others.rest))
  }

  function DecodeAddOn(s: seq<Byte>): (r: Option<Decoded<AddOn>>)
    ensures r.Some? ==> |r.value.rest| < |s| && AddOnFits(r.value.value)
    decreases |s|, 1
  {
    var name :- DecodeBytes(s);
    var desc :- DecodeBytes(name.rest);
    var sticker :- DecodeU64(desc.rest);
    var actual :- DecodeU64(sticker.rest);
    var assoc :- DecodeAssoc(actual.rest);
    Some(Decoded(AddOn(name.value, desc.value, sticker.value, actual.value, assoc.value), assoc.rest))
  }

  function DecodeAssoc(s: seq<Byte>): (r: Option<Decoded<Option<Product>>>)
    ensures r.Some? ==> |r.value.rest| < |s| && (r.value.value.Some? ==> ProductFits(r.value.value.value))
    decreases |s|, 0
  {
    var tag :- DecodeTag(s);
    if !tag.value then Some(Decoded(None, tag.rest))
    else
      var p :- DecodeProduct(tag.rest);
      Some(Decoded(Some(p.value), p.rest))
  }

  function DecodeLineItem(s: seq<Byte>): (r: Option<Decoded<LineItem>>)
    ensures r.Some? ==> |r.value.rest| < |s| && ProductFits(r.value.value.0)
  {
    var product :- DecodeProduct(s);
    var paid :- DecodeU64(product.rest);
    Some(Decoded((product.value, paid.value), paid.rest))
  }

  function DecodeLineItems(s: seq<Byte>, n: nat): (r: Option<Decoded<seq<LineItem>>>)
    ensures r.Some? ==> |r.value.rest| <= |s| && |r.value.value| == n && LineItemsFit(r.value.value)
    decreases |s|
  {
    if n == 0 then Some(Decoded([], s))
    else
      var first :- DecodeLineItem(s);
      var others :- DecodeLineItems(first.rest, n - 1);
      assert ([first.value] + others.value)[1..] == others.value;
      Some(Decoded([first.value] + others.value, others.rest))
  }

  function DecodeOrder(s: seq<Byte>): (r: Option<Decoded<Order>>)
    ensures r.Some? ==> |r.value.rest| < |s| && OrderFits(r.value.value)
  {
    var placed :- DecodeDate(s);
    var shipped :- DecodeDate(placed.rest);
    var subtotal :- DecodeU64(shipped.rest);
    var total :- DecodeU64(subtotal.rest);
    var len :- DecodeU64(total.rest);
    var items :- DecodeLineItems(len.rest, len.value);
    var notes :- DecodeBytes(items.rest);
    Some(Decoded(Order(placed.value, shipped.value, subtotal.value, total.value, items.value, notes.value),
                 notes.rest))
  }

  function DecodeOrderSeq(s: seq<Byte>, n: nat): (r: Option<Decoded<seq<Order>>>)
    ensures r.Some? ==> |r.value.rest| <= |s| && |r.value.value| == n && OrderSeqFits(r.value.value)
    decreases |s|
  {
    if n == 0 then Some(Decoded([], s))
    else
      var first :- DecodeOrder(s);
      var others :- DecodeOrderSeq(first.rest, n - 1);
      assert ([first.value] + others.value)[1..] == others.value;
      Some(Decoded([first.value] + others.value, others.rest))
  }

  /** What `decode_from_std_read` reads as a `Vec<Order>`, with the unread rest. */
  function DecodeOrders(s: seq<Byte>): (r: Option<Decoded<seq<Order>>>)
    ensures r.Some? ==> |r.value.rest| < |s| && StoreFits(r.value.value)
  {
    var len :- DecodeU64(s);
    var os :- DecodeOrderSeq(len.rest, len.value);
    Some(Decoded(os.value, os.rest))
  }
}
