/**
 * The `to_string` renderings of products, add-ons and orders. The text is the
 * UTF-8 bytes of a Rust `String`: names and descriptions are copied verbatim,
 * every other piece is ASCII. A price in cents `c` is shown as `c / 100`, a
 * dot and `c % 100`, with no zero padding of the cents. Children are listed
 * under their index in the list, from 0, in the order they are stored.
 */
module Render {
  import opened Wrappers
  import opened Wire
  import opened Purchases
  import opened Text
  import opened Dates

  // ================================================================ ASCII pieces

  predicate IsAscii(s: string) {
    forall i :: 0 <= i < |s| ==> s[i] as int < 0x80
  }

  /** The bytes of an ASCII string: one byte per character, its code. */
  function Ascii(s: string): (r: seq<Byte>)
    requires IsAscii(s)
    ensures |r| == |s| && forall i :: 0 <= i < |s| ==> r[i] == s[i] as int
  {
    seq(|s|, i requires 0 <= i < |s| => s[i] as int)
  }

  lemma DecimalAscii(n: nat)
    ensures IsAscii(Decimal(n))
  {
    var d := Decimal(n);
    assert forall i :: 0 <= i < |d| ==> IsDigit(d[i]);
  }

  /** `n.to_string()` as bytes. */
  function Num(n: nat): (r: seq<Byte>)
    ensures |r| >= 1 && forall i :: 0 <= i < |r| ==> '0' as int <= r[i] <= '9' as int
  {
    DecimalAscii(n);
    Ascii(Decimal(n))
  }

  // ================================================================ prices

  /** How every `to_string` shows a price in cents: whole units, `.`, the
      remainder, both in plain decimal. */
  function PriceString(c: nat): string {
    Decimal(c / 100) + "." + Decimal(c % 100)
  }

  function Price(c: nat): seq<Byte> {
    DecimalAscii(c / 100);
    DecimalAscii(c % 100);
    Ascii(PriceString(c))
  }

  /** Reads a price the way it was shown: two decimal fields around one dot,
      the second of them below 100. */
  function PriceValue(s: string): (r: Option<nat>)
    ensures r.Some? ==> |Split(s, '.')| == 2
  {
    var fields := Split(s, '.');
    if |fields| != 2 then None
    else
      match (ParseUnsigned(fields[0], U64_LIMIT), ParseUnsigned(fields[1], 100))
      case (Some(units), Some(cents)) => Some(100 * units + cents)
      case _ => None
  }

  lemma DecimalWithout(n: nat, c: char)
    requires !IsDigit(c)
    ensures c !in Decimal(n)
  {
    var d := Decimal(n);
    assert forall i :: 0 <= i < |d| ==> IsDigit(d[i]);
  }

  /** The shown price reads back as the same number of cents: the cents part
      is always below 100, so no two prices share a text. */
  lemma PriceRoundTrip(c: U64)
    ensures PriceValue(PriceString(c)) == Some(c)
  {
    var units, cents := Decimal(c / 100), Decimal(c % 100);
    DecimalWithout(c / 100, '.');
    DecimalWithout(c % 100, '.');
    var fields := [units, cents];
    assert Join(fields, '.') == PriceString(c) by {
      assert fields[1..] == [cents];
    }
    SplitJoin(fields, '.');
    ParseDecimal(c / 100, U64_LIMIT);
    ParseDecimal(c % 100, 100);
  }

  /** Different prices are shown differently. */
  lemma PriceStringInjective(c: U64, c': U64)
    requires PriceString(c) == PriceString(c')
    ensures c == c'
  {
    PriceRoundTrip(c);
    PriceRoundTrip(c');
  }

  /** The cents are not padded: 105 cents shows as `1.5`. */
  lemma CentsNotPadded()
    ensures PriceString(105) == "1.5"
    ensures PriceString(150) == "1.50"
  {
    assert Decimal(50) == Decimal(5) + [DigitChar(0)];
  }

  // ================================================================ numbered lists

  /** Children listed one after the other, each behind its index: the index
      of `bodies[i]` is `i`. */
  function Numbered(bodies: seq<seq<Byte>>): seq<Byte> {
    if bodies == [] then []
    else Numbered(bodies[..|bodies| - 1]) + Num(|bodies| - 1) + bodies[|bodies| - 1]
  }

  /** Listing one more child appends its index and its body. */
  lemma NumberedStep(bodies: seq<seq<Byte>>, k: nat)
    requires k < |bodies|
    ensures Numbered(bodies[..k + 1]) == Numbered(bodies[..k]) + Num(k) + bodies[k]
  {
    assert bodies[..k + 1][..k] == bodies[..k];
  }

  /** The children are listed in order: child `k`, behind index `k`, comes
      right after the first `k` children and before all later ones. */
  lemma {:induction false} NumberedInOrder(bodies: seq<seq<Byte>>, k: nat)
    requires k < |bodies|
    ensures Numbered(bodies[..k]) + Num(k) + bodies[k] <= Numbered(bodies)
    decreases |bodies|
  {
    var n := |bodies|;
    assert bodies[..n - 1] == bodies[..n][..n - 1];
    if k < n - 1 {
      NumberedInOrder(bodies[..n - 1], k);
      assert bodies[..n - 1][..k] == bodies[..k];
    } else {
      assert bodies[..n - 1] == bodies[..k];
    }
  }

  // ================================================================ texts

  // The fixed labels of the texts, as bytes.
  const NAME: seq<Byte> := Ascii("Name: ")
  const DESCRIPTION: seq<Byte> := Ascii("\nDescription: ")
  const BASE_PRICE: seq<Byte> := Ascii("\nBase Price: $")
  const STICKER_PRICE: seq<Byte> := Ascii("\nSticker Price: $")
  const ACTUAL_PRICE: seq<Byte> := Ascii("\nActual Price: $")
  const NEWLINE: seq<Byte> := Ascii("\n")
  const SUB_PRODUCTS_OPEN: seq<Byte> := Ascii("Sub-products: {\n\n")
  const ADD_ONS_OPEN: seq<Byte> := Ascii("Add-ons: {\n\n")
  const BLOCK_CLOSE: seq<Byte> := Ascii("}\n")
  const ENTRY_DOT: seq<Byte> := Ascii(".\n")
  const BLANK_LINE: seq<Byte> := Ascii("\n\n")
  const ASSOC_OPEN: seq<Byte> := Ascii("\nAssociated Product: {\n\n")
  const ASSOC_CLOSE: seq<Byte> := Ascii("\n}")
  const PLACED: seq<Byte> := Ascii("Placed: ")
  const SHIPPED: seq<Byte> := Ascii("\nShipped: ")
  const SUBTOTAL: seq<Byte> := Ascii("\nSubtotal: $")
  const TOTAL: seq<Byte> := Ascii("\nTotal: $")
  const PRODUCTS_OPEN: seq<Byte> := Ascii("\nProducts: {\n\n")
  const LINE_PRICE: seq<Byte> := Ascii(". $")

  /** The scalar fields of a product, one per line. */
  function ProductHeadText(p: Product): seq<Byte> {
    NAME + p.name + DESCRIPTION + p.desc
    + BASE_PRICE + Price(p.basePrice)
    + STICKER_PRICE + Price(p.stickerPrice) + NEWLINE
  }

  /** `Product::to_string`. */
  function ProductText(p: Product): seq<Byte>
    decreases p, 2
  {
    ProductHeadText(p) + SubProductsBlock(p.items) + AddOnsBlock(p.addOns)
  }

  /** The block listing the sub-products, present only when they were recorded. */
  function SubProductsBlock(o: Option<ProductVec>): seq<Byte>
    decreases o, 1
  {
    match o
    case None => []
    case Some(v) => SUB_PRODUCTS_OPEN + Numbered(ProductEntries(v.elems)) + BLOCK_CLOSE
  }

  /** The listing bodies of sub-products: each one's text between `.\n` and a blank line. */
  function ProductEntries(ps: seq<Product>): (r: seq<seq<Byte>>)
    ensures |r| == |ps|
    ensures forall i :: 0 <= i < |ps| ==> r[i] == ENTRY_DOT + ProductText(ps[i]) + BLANK_LINE
    decreases ps, 0
  {
    if ps == [] then []
    else ProductEntries(ps[..|ps| - 1]) + [ENTRY_DOT + ProductText(ps[|ps| - 1]) + BLANK_LINE]
  }

  /** The block listing the add-ons, present only when they were recorded. */
  function AddOnsBlock(o: Option<AddOnVec>): seq<Byte>
    decreases o, 1
  {
    match o
    case None => []
    case Some(v) => ADD_ONS_OPEN + Numbered(AddOnEntries(v.elems)) + BLOCK_CLOSE
  }

  /** The listing bodies of add-ons: each one's text between `.\n` and a blank line. */
  function AddOnEntries(addOns: seq<AddOn>): (r: seq<seq<Byte>>)
    ensures |r| == |addOns|
    ensures forall i :: 0 <= i < |addOns| ==> r[i] == ENTRY_DOT + AddOnText(addOns[i]) + BLANK_LINE
    decreases addOns, 0
  {
    if addOns == [] then []
    else AddOnEntries(addOns[..|addOns| - 1]) + [ENTRY_DOT + AddOnText(addOns[|addOns| - 1]) + BLANK_LINE]
  }

  /** The scalar fields of an add-on. */
  function AddOnHeadText(a: AddOn): seq<Byte> {
    NAME + a.name + DESCRIPTION + a.desc
    + STICKER_PRICE + Price(a.stickerPrice) + NEWLINE
    + ACTUAL_PRICE + Price(a.actualPrice)
  }

  /** `AddOn::to_string`. */
  function AddOnText(a: AddOn): seq<Byte>
    decreases a, 2
  {
    AddOnHeadText(a) + AssocBlock(a.assocProduct)
  }

  /** The associated product in braces, present only when there is one. */
  function AssocBlock(o: Option<Product>): seq<Byte>
    decreases o, 1
  {
    match o
    case None => []
    case Some(p) => ASSOC_OPEN + ProductText(p) + ASSOC_CLOSE
  }

  lemma DateStringAscii(d: Date)
    ensures IsAscii(DateString(d))
  {
    DecimalAscii(d.month);
    DecimalAscii(d.day);
    DecimalAscii(d.year);
  }

  /** `Date::to_string` as bytes. */
  function DateText(d: Date): seq<Byte> {
    DateStringAscii(d);
    Ascii(DateString(d))
  }

  /** The dates and amounts of an order, then the opening of its product list. */
  function OrderHeadText(o: Order): seq<Byte> {
    PLACED + DateText(o.datePlaced)
    + SHIPPED + DateText(o.dateShipped)
    + SUBTOTAL + Price(o.subtotal)
    + TOTAL + Price(o.total)
    + PRODUCTS_OPEN
  }

  /** The listing bodies of an order's lines: the amount paid, then the product. */
  function LineEntries(items: seq<LineItem>): (r: seq<seq<Byte>>)
    ensures |r| == |items|
    ensures forall i :: 0 <= i < |items| ==>
      r[i] == LINE_PRICE + Price(items[i].1) + NEWLINE + ProductText(items[i].0) + NEWLINE
  {
    if items == [] then []
    else
      var last := items[|items| - 1];
      LineEntries(items[..|items| - 1]) + [LINE_PRICE + Price(last.1) + NEWLINE + ProductText(last.0) + NEWLINE]
  }

  /** `Order::to_string`. The product list is not closed and the notes are not shown. */
  function OrderText(o: Order): seq<Byte> {
    OrderHeadText(o) + Numbered(LineEntries(o.products))
  }

  // ================================================================ what is shown

  lemma OpenLabels()
    ensures |SUB_PRODUCTS_OPEN| > 0 && SUB_PRODUCTS_OPEN[0] == 'S' as int
    ensures |ADD_ONS_OPEN| > 0 && ADD_ONS_OPEN[0] == 'A' as int
  {
  }

  /** Of two optional blocks after a head, each empty or opening with its
      own label, the first shows exactly when it is not empty, provided the
      labels start differently. */
  lemma FirstBlockShown(head: seq<Byte>, first: seq<Byte>, second: seq<Byte>,
                        open1: seq<Byte>, open2: seq<Byte>)
    requires open1 != [] && open2 != [] && open1[0] != open2[0]
    requires first == [] || open1 <= first
    requires second == [] || open2 <= second
    ensures first != [] <==> head + open1 <= head + first + second
  {
    var text := head + first + second;
    if first == [] {
      assert text == head + second;
      assert !(head + open1 <= text) by {
        if second != [] {
          assert text[|head|] == open2[0];
          assert (head + open1)[|head|] == open1[0];
        }
      }
    }
  }

  /** A product's text has a sub-products block exactly when its sub-products
      were recorded, and an add-ons block exactly when its add-ons were; an
      empty list still shows its (empty) block. */
  lemma ProductBlocksShown(p: Product)
    ensures p.items.Some? <==> ProductHeadText(p) + SUB_PRODUCTS_OPEN <= ProductText(p)
    ensures p.addOns.Some? <==>
      ProductHeadText(p) + SubProductsBlock(p.items) + ADD_ONS_OPEN <= ProductText(p)
    ensures p.items.None? && p.addOns.None? ==> ProductText(p) == ProductHeadText(p)
  {
    var head, items, addOns := ProductHeadText(p), SubProductsBlock(p.items), AddOnsBlock(p.addOns);
    OpenLabels();
    assert items == [] <==> p.items.None?;
    assert addOns == [] <==> p.addOns.None?;
    FirstBlockShown(head, items, addOns, SUB_PRODUCTS_OPEN, ADD_ONS_OPEN);
    assert p.addOns.None? ==> head + items + addOns == head + items;
  }

  /** An add-on's text shows an associated product exactly when it has one. */
  lemma AssocShown(a: AddOn)
    ensures a.assocProduct.Some? <==> AddOnHeadText(a) + ASSOC_OPEN <= AddOnText(a)
    ensures a.assocProduct.None? ==> AddOnText(a) == AddOnHeadText(a)
  {
  }

  /** An order's text does not depend on its notes. */
  lemma NotesNotShown(o: Order, notes: seq<Byte>)
    ensures OrderText(o.(notes := notes)) == OrderText(o)
  {
  }

  // ================================================================ the renderers

  /** `Product::to_string` as written: pushes each piece onto an initially
      empty string and lists the children in a loop. */
  method RenderProduct(p: Product) returns (temp: seq<Byte>)
    ensures temp == ProductText(p)
    decreases p, 1
  {
    temp := [];
    temp := temp + NAME;
    assert temp == NAME;
    temp := temp + p.name;
    temp := temp + DESCRIPTION;
    temp := temp + p.desc;
    temp := temp + BASE_PRICE;
    temp := temp + Price(p.basePrice);
    temp := temp + STICKER_PRICE;
    temp := temp + Price(p.stickerPrice);
    temp := temp + NEWLINE;
    assert temp == ProductHeadText(p);
    match p.items {
      case None =>
      case Some(v) =>
        var block := RenderProducts(v.elems);
        temp := temp + (SUB_PRODUCTS_OPEN + block + BLOCK_CLOSE);
    }
    assert temp == ProductHeadText(p) + SubProductsBlock(p.items);
    match p.addOns {
      case None =>
      case Some(v) =>
        var block := RenderAddOns(v.elems);
        temp := temp + (ADD_ONS_OPEN + block + BLOCK_CLOSE);
    }
  }

  /** The loop `for (index, item) in x.iter().enumerate()` over sub-products. */
  method RenderProducts(ps: seq<Product>) returns (temp: seq<Byte>)
    ensures temp == Numbered(ProductEntries(ps))
    decreases ps, 0
  {
    temp := [];
    var index := 0;
    while index < |ps|
      invariant index <= |ps|
      invariant temp == Numbered(ProductEntries(ps)[..index])
    {
      var item := RenderProduct(ps[index]);
      NumberedStep(ProductEntries(ps), index);
      temp := temp + Num(index) + (ENTRY_DOT + item + BLANK_LINE);
      index := index + 1;
    }
    assert ProductEntries(ps)[..index] == ProductEntries(ps);
  }

  /** The loop `for (index, item) in x.iter().enumerate()` over add-ons. */
  method RenderAddOns(addOns: seq<AddOn>) returns (temp: seq<Byte>)
    ensures temp == Numbered(AddOnEntries(addOns))
    decreases addOns, 0
  {
    temp := [];
    var index := 0;
    while index < |addOns|
      invariant index <= |addOns|
      invariant temp == Numbered(AddOnEntries(addOns)[..index])
    {
      var item := RenderAddOn(addOns[index]);
      NumberedStep(AddOnEntries(addOns), index);
      temp := temp + Num(index) + (ENTRY_DOT + item + BLANK_LINE);
      index := index + 1;
    }
    assert AddOnEntries(addOns)[..index] == AddOnEntries(addOns);
  }

  /** `AddOn::to_string` as written. */
  method RenderAddOn(a: AddOn) returns (temp: seq<Byte>)
    ensures temp == AddOnText(a)
    decreases a, 1
  {
    temp := NAME;
    temp := temp + a.name;
    temp := temp + DESCRIPTION;
    temp := temp + a.desc;
    temp := temp + STICKER_PRICE;
    temp := temp + Price(a.stickerPrice);
    temp := temp + NEWLINE;
    temp := temp + ACTUAL_PRICE;
    temp := temp + Price(a.actualPrice);
    assert temp == AddOnHeadText(a);
    match a.assocProduct {
      case None =>
      case Some(x) =>
        var text := RenderProduct(x);
        temp := temp + (ASSOC_OPEN + text + ASSOC_CLOSE);
    }
  }

  /** `Order::to_string` as written: the dates and amounts, then the lines. */
  method RenderOrder(o: Order) returns (temp: seq<Byte>)
    ensures temp == OrderText(o)
  {
    temp := PLACED;
    var placed := DateToString(o.datePlaced);
    DateStringAscii(o.datePlaced);
    temp := temp + Ascii(placed);
    temp := temp + SHIPPED;
    var shipped := DateToString(o.dateShipped);
    DateStringAscii(o.dateShipped);
    temp := temp + Ascii(shipped);
    temp := temp + SUBTOTAL;
    temp := temp + Price(o.subtotal);
    temp := temp + TOTAL;
    temp := temp + Price(o.total);
    temp := temp + PRODUCTS_OPEN;
    assert temp == OrderHeadText(o);
    var lines := RenderLines(o.products);
    temp := temp + lines;
  }

  /** The loop `for (index, (product, price)) in self.products.iter().enumerate()`. */
  method RenderLines(items: seq<LineItem>) returns (temp: seq<Byte>)
    ensures temp == Numbered(LineEntries(items))
  {
    temp := [];
    var index := 0;
    while index < |items|
      invariant index <= |items|
      invariant temp == Numbered(LineEntries(items)[..index])
    {
      var (product, price) := items[index];
      var text := RenderProduct(product);
      NumberedStep(LineEntries(items), index);
      temp := temp + Num(index) + (LINE_PRICE + Price(price) + NEWLINE + text + NEWLINE);
      index := index + 1;
    }
    assert LineEntries(items)[..index] == LineEntries(items);
  }
}
