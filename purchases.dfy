/**
 * The purchase records: dates, products with optional sub-products and
 * add-ons, add-ons with an optional associated product, and orders. They form
 * an owned tree (Product -> AddOn -> Product) with no sharing and no cycles.
 * Prices are in cents and are stored verbatim: nothing relates a product's
 * base price to its sticker price, its add-ons or its sub-products, nor an
 * order's subtotal or total to what was paid for its line items.
 */
module Purchases {
  import opened Wrappers
  import opened Wire

  /** Text is the UTF-8 bytes of a Rust `String`, kept opaque. */
  type Text = seq<Byte>

  datatype Date = Date(month: U8, day: U8, year: U64)

  datatype Product = Product(
    name: Text,
    desc: Text,
    basePrice: U64,             // excluding add-ons
    stickerPrice: U64,          // including add-ons, before sale discounts
    items: Option<ProductVec>,  // itemised sub-products, if recorded
    addOns: Option<AddOnVec>)   // add-ons, if recorded

  /** The `Vec<Product>` inside `Option<Vec<Product>>`. */
  datatype ProductVec = ProductVec(elems: seq<Product>)

  /** The `Vec<AddOn>` inside `Option<Vec<AddOn>>`. */
  datatype AddOnVec = AddOnVec(elems: seq<AddOn>)

  datatype AddOn = AddOn(
    name: Text,
    desc: Text,
    stickerPrice: U64,          // the add-on's own undiscounted price
    actualPrice: U64,           // the add-on's price after its own discount
    assocProduct: Option<Product>)

  /** A line of an order: the product and what was actually paid for it. */
  type LineItem = (Product, U64)

  datatype Order = Order(
    datePlaced: Date,
    dateShipped: Date,
    subtotal: U64,
    total: U64,
    products: seq<LineItem>,
    notes: Text)

  // Every string and vector of a Rust value has fewer than 2^64 elements, so
  // its length fits the `u64` length prefix. The predicates below state this
  // for the whole tree; every value the program can build satisfies them.

  ghost predicate TextFits(s: Text) {
    |s| < U64_LIMIT
  }

  ghost predicate ProductFits(p: Product) {
    && TextFits(p.name)
    && TextFits(p.desc)
    && ItemsFit(p.items)
    && AddOnsFit(p.addOns)
  }

  ghost predicate ItemsFit(o: Option<ProductVec>) {
    o.Some? ==> |o.value.elems| < U64_LIMIT && ProductSeqFits(o.value.elems)
  }

  ghost predicate ProductSeqFits(ps: seq<Product>) {
    ps != [] ==> ProductFits(ps[0]) && ProductSeqFits(ps[1..])
  }

  ghost predicate AddOnsFit(o: Option<AddOnVec>) {
    o.Some? ==> |o.value.elems| < U64_LIMIT && AddOnSeqFits(o.value.elems)
  }

  ghost predicate AddOnSeqFits(addOns: seq<AddOn>) {
    addOns != [] ==> AddOnFits(addOns[0]) && AddOnSeqFits(addOns[1..])
  }

  ghost predicate AddOnFits(a: AddOn) {
    && TextFits(a.name)
    && TextFits(a.desc)
    && (a.assocProduct.Some? ==> ProductFits(a.assocProduct.value))
  }

  ghost predicate LineItemsFit(items: seq<LineItem>) {
    items != [] ==> ProductFits(items[0].0) && LineItemsFit(items[1..])
  }

  ghost predicate OrderFits(o: Order) {
    && |o.products| < U64_LIMIT
    && LineItemsFit(o.products)
    && TextFits(o.notes)
  }

  ghost predicate OrderSeqFits(os: seq<Order>) {
    os != [] ==> OrderFits(os[0]) && OrderSeqFits(os[1..])
  }

  /** A whole store: the list of orders and everything in it fits. */
  ghost predicate StoreFits(os: seq<Order>) {
    |os| < U64_LIMIT && OrderSeqFits(os)
  }
}
