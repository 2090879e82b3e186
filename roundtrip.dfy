/**
 * The round-trip law of the order store's format: decoding what was encoded
 * gives back the same value, whatever bytes follow it, for every record of the
 * product tree. The proofs follow the mutual recursion of the encoders; the
 * step lemmas at the top unfold one decoder once, from the results of the
 * decoders it calls.
 */
module RoundTrip {
  import opened Wrappers
  import opened Wire
  import opened Purchases
  import opened Codec

  lemma Assoc(a: seq<Byte>, b: seq<Byte>, c: seq<Byte>)
    ensures (a + b) + c == a + (b + c)
  {
  }

  lemma HeadTail<T>(s: seq<T>)
    requires s != []
    ensures [s[0]] + s[1..] == s
  {
  }

  // ================================================================ steps

  lemma DateStep(s: seq<Byte>, month: Decoded<U8>, day: Decoded<U8>, year: Decoded<U64>)
    requires DecodeU8(s) == Some(month)
    requires DecodeU8(month.rest) == Some(day)
    requires DecodeU64(day.rest) == Some(year)
    ensures DecodeDate(s) == Some(Decoded(Date(month.value, day.value, year.value), year.rest))
  {
  }

  lemma ProductStep(s: seq<Byte>, name: Decoded<Text>, desc: Decoded<Text>, base: Decoded<U64>,
                    sticker: Decoded<U64>, items: Decoded<Option<ProductVec>>, addOns: Decoded<Option<AddOnVec>>)
    requires DecodeBytes(s) == Some(name)
    requires DecodeBytes(name.rest) == Some(desc)
    requires DecodeU64(desc.rest) == Some(base)
    requires DecodeU64(base.rest) == Some(sticker)
    requires DecodeItems(sticker.rest) == Some(items)
    requires DecodeAddOns(items.rest) == Some(addOns)
    ensures DecodeProduct(s) == Some(Decoded(Product(name.value, desc.value, base.value, sticker.value,
                                                     items.value, addOns.value), addOns.rest))
  {
  }

  lemma ItemsStep(s: seq<Byte>, tag: seq<Byte>, len: Decoded<U64>, ps: Decoded<seq<Product>>)
    requires DecodeTag(s) == Some(Decoded(true, tag))
    requires DecodeU64(tag) == Some(len)
    requires DecodeProductSeq(len.rest, len.value) == Some(ps)
    ensures DecodeItems(s) == Some(Decoded(Some(ProductVec(ps.value)), ps.rest))
  {
  }

  lemma ProductSeqCons(s: seq<Byte>, n: nat, first: Decoded<Product>, others: Decoded<seq<Product>>)
    requires DecodeProduct(s) == Some(first)
    requires n > 0
    requires DecodeProductSeq(first.rest, n - 1) == Some(others)
    ensures DecodeProductSeq(s, n) == Some(Decoded([first.value] + others.value, others.rest))
  {
  }


  lemma AddOnsStep(s: seq<Byte>, tag: seq<Byte>, len: Decoded<U64>, addOns: Decoded<seq<AddOn>>)
    requires DecodeTag(s) == Some(Decoded(true, tag))
    requires DecodeU64(tag) == Some(len)
    requires DecodeAddOnSeq(len.rest, len.value) == Some(addOns)
    ensures DecodeAddOns(s) == Some(Decoded(Some(AddOnVec(addOns.value)), addOns.rest))
  {
  }

  lemma AddOnSeqCons(s: seq<Byte>, n: nat, first: Decoded<AddOn>, others: Decoded<seq<AddOn>>)
    requires DecodeAddOn(s) == Some(first)
    requires n > 0
    requires DecodeAddOnSeq(first.rest, n - 1) == Some(others)
    ensures DecodeAddOnSeq(s, n) == Some(Decoded([first.value] + others.value, others.rest))
  {
  }


  lemma AddOnStep(s: seq<Byte>, name: Decoded<Text>, desc: Decoded<Text>, sticker: Decoded<U64>,
                  actual: Decoded<U64>, assoc: Decoded<Option<Product>>)
    requires DecodeBytes(s) == Some(name)
    requires DecodeBytes(name.rest) == Some(desc)
    requires DecodeU64(desc.rest) == Some(sticker)
    requires DecodeU64(sticker.rest) == Some(actual)
    requires DecodeAssoc(actual.rest) == Some(assoc)
    ensures DecodeAddOn(s) == Some(Decoded(AddOn(name.value, desc.value, sticker.value, actual.value,
                                                 assoc.value), assoc.rest))
  {
  }

  lemma AssocStep(s: seq<Byte>, tag: seq<Byte>, p: Decoded<Product>)
    requires DecodeTag(s) == Some(Decoded(true, tag))
    requires DecodeProduct(tag) == Some(p)
    ensures DecodeAssoc(s) == Some(Decoded(Some(p.value), p.rest))
  {
  }

  lemma LineItemStep(s: seq<Byte>, product: Decoded<Product>, paid: Decoded<U64>)
    requires DecodeProduct(s) == Some(product)
    requires DecodeU64(product.rest) == Some(paid)
    ensures DecodeLineItem(s) == Some(Decoded((product.value, paid.value), paid.rest))
  {
  }

  lemma LineItemsCons(s: seq<Byte>, n: nat, first: Decoded<LineItem>, others: Decoded<seq<LineItem>>)
    requires DecodeLineItem(s) == Some(first)
    requires n > 0
    requires DecodeLineItems(first.rest, n - 1) == Some(others)
    ensures DecodeLineItems(s, n) == Some(Decoded([first.value] + others.value, others.rest))
  {
  }


  lemma OrderStep(s: seq<Byte>, placed: Decoded<Date>, shipped: Decoded<Date>, subtotal: Decoded<U64>,
                  total: Decoded<U64>, len: Decoded<U64>, items: Decoded<seq<LineItem>>, notes: Decoded<Text>)
    requires DecodeDate(s) == Some(placed)
    requires DecodeDate(placed.rest) == Some(shipped)
    requires DecodeU64(shipped.rest) == Some(subtotal)
    requires DecodeU64(subtotal.rest) == Some(total)
    requires DecodeU64(total.rest) == Some(len)
    requires DecodeLineItems(len.rest, len.value) == Some(items)
    requires DecodeBytes(items.rest) == Some(notes)
    ensures DecodeOrder(s) == Some(Decoded(Order(placed.value, shipped.value, subtotal.value, total.value,
                                                 items.value, notes.value), notes.rest))
  {
  }

  lemma OrderSeqCons(s: seq<Byte>, n: nat, first: Decoded<Order>, others: Decoded<seq<Order>>)
    requires DecodeOrder(s) == Some(first)
    requires n > 0
    requires DecodeOrderSeq(first.rest, n - 1) == Some(others)
    ensures DecodeOrderSeq(s, n) == Some(Decoded([first.value] + others.value, others.rest))
  {
  }


  lemma OrdersStep(s: seq<Byte>, len: Decoded<U64>, os: Decoded<seq<Order>>)
    requires DecodeU64(s) == Some(len)
    requires DecodeOrderSeq(len.rest, len.value) == Some(os)
    ensures DecodeOrders(s) == Some(os)
  {
  }

  // ================================================================ round trips

  lemma {:induction false} DateRoundTrip(d: Date, t: seq<Byte>)
    ensures DecodeDate(EncodeDate(d) + t) == Some(Decoded(d, t))
  {
    var a := EncodeU8(d.month);
    var b := EncodeU8(d.day);
    var c := EncodeU64(d.year);
    var r2 := c + t;
    var r1 := b + r2;
    calc {
      EncodeDate(d) + t;
      (a + b + c) + t;
      { Assoc(a + b, c, t); }
      (a + b) + r2;
      { Assoc(a, b, r2); }
      a + r1;
    }
    assert (a + r1)[1..] == r1;
    assert r1[1..] == r2;
    U64RoundTrip(d.year, t);
    DateStep(a + r1, Decoded(d.month, r1), Decoded(d.day, r2), Decoded(d.year, t));
  }

  lemma {:induction false} ProductRoundTrip(p: Product, t: seq<Byte>)
    requires ProductFits(p)
    ensures DecodeProduct(EncodeProduct(p) + t) == Some(Decoded(p, t))
  {
    var a := EncodeBytes(p.name);
    var b := EncodeBytes(p.desc);
    var c := EncodeU64(p.basePrice);
    var d := EncodeU64(p.stickerPrice);
    var e := EncodeItems(p.items);
    var f := EncodeAddOns(p.addOns);
    var r6 := f + t;
    var r5 := e + r6;
    var r4 := d + r5;
    var r3 := c + r4;
    var r2 := b + r3;
    calc {
      EncodeProduct(p) + t;
      (a + b + c + d + e + f) + t;
      { Assoc(a + b + c + d + e, f, t); }
      (a + b + c + d + e) + r6;
      { Assoc(a + b + c + d, e, r6); }
      (a + b + c + d) + r5;
      { Assoc(a + b + c, d, r5); }
      (a + b + c) + r4;
      { Assoc(a + b, c, r4); }
      (a + b) + r3;
      { Assoc(a, b, r3); }
      a + r2;
    }
    BytesRoundTrip(p.name, r2);
    BytesRoundTrip(p.desc, r3);
    U64RoundTrip(p.basePrice, r4);
    U64RoundTrip(p.stickerPrice, r5);
    ItemsRoundTrip(p.items, r6);
    AddOnsRoundTrip(p.addOns, t);
    ProductStep(a + r2, Decoded(p.name, r2), Decoded(p.desc, r3), Decoded(p.basePrice, r4),
                Decoded(p.stickerPrice, r5), Decoded(p.items, r6), Decoded(p.addOns, t));
  }

  lemma {:induction false} ItemsRoundTrip(o: Option<ProductVec>, t: seq<Byte>)
    requires ItemsFit(o)
    ensures DecodeItems(EncodeItems(o) + t) == Some(Decoded(o, t))
  {
    match o
    case None =>
      TagRoundTrip(false, t);
    case Some(v) =>
      var a := EncodeTag(true);
      var b := EncodeU64(|v.elems|);
      var c := EncodeProductSeq(v.elems);
      var r2 := c + t;
      var r1 := b + r2;
      calc {
        EncodeItems(o) + t;
        (a + b + c) + t;
        { Assoc(a + b, c, t); }
        (a + b) + r2;
        { Assoc(a, b, r2); }
        a + r1;
      }
      TagRoundTrip(true, r1);
      U64RoundTrip(|v.elems|, r2);
      ProductSeqRoundTrip(v.elems, t);
      ItemsStep(a + r1, r1, Decoded(|v.elems|, r2), Decoded(v.elems, t));
  }

  lemma {:induction false} ProductSeqRoundTrip(ps: seq<Product>, t: seq<Byte>)
    requires ProductSeqFits(ps)
    ensures DecodeProductSeq(EncodeProductSeq(ps) + t, |ps|) == Some(Decoded(ps, t))
  {
    if ps == [] {
      assert EncodeProductSeq(ps) + t == t;
    } else {
      var a := EncodeProduct(ps[0]);
      var r1 := EncodeProductSeq(ps[1..]) + t;
      Assoc(a, EncodeProductSeq(ps[1..]), t);
      ProductRoundTrip(ps[0], r1);
      ProductSeqRoundTrip(ps[1..], t);
      ProductSeqCons(a + r1, |ps|, Decoded(ps[0], r1), Decoded(ps[1..], t));
      HeadTail(ps);
    }
  }

  lemma {:induction false} AddOnsRoundTrip(o: Option<AddOnVec>, t: seq<Byte>)
    requires AddOnsFit(o)
    ensures DecodeAddOns(EncodeAddOns(o) + t) == Some(Decoded(o, t))
  {
    match o
    case None =>
      TagRoundTrip(false, t);
    case Some(v) =>
      var a := EncodeTag(true);
      var b := EncodeU64(|v.elems|);
      var c := EncodeAddOnSeq(v.elems);
      var r2 := c + t;
      var r1 := b + r2;
      calc {
        EncodeAddOns(o) + t;
        (a + b + c) + t;
        { Assoc(a + b, c, t); }
        (a + b) + r2;
        { Assoc(a, b, r2); }
        a + r1;
      }
      TagRoundTrip(true, r1);
      U64RoundTrip(|v.elems|, r2);
      AddOnSeqRoundTrip(v.elems, t);
      AddOnsStep(a + r1, r1, Decoded(|v.elems|, r2), Decoded(v.elems, t));
  }

  lemma {:induction false} AddOnSeqRoundTrip(addOns: seq<AddOn>, t: seq<Byte>)
    requires AddOnSeqFits(addOns)
    ensures DecodeAddOnSeq(EncodeAddOnSeq(addOns) + t, |addOns|) == Some(Decoded(addOns, t))
  {
    if addOns == [] {
      assert EncodeAddOnSeq(addOns) + t == t;
    } else {
      var a := EncodeAddOn(addOns[0]);
      var r1 := EncodeAddOnSeq(addOns[1..]) + t;
      Assoc(a, EncodeAddOnSeq(addOns[1..]), t);
      AddOnRoundTrip(addOns[0], r1);
      AddOnSeqRoundTrip(addOns[1..], t);
      AddOnSeqCons(a + r1, |addOns|, Decoded(addOns[0], r1), Decoded(addOns[1..], t));
      HeadTail(addOns);
    }
  }

  lemma {:induction false} AddOnRoundTrip(x: AddOn, t: seq<Byte>)
    requires AddOnFits(x)
    ensures DecodeAddOn(EncodeAddOn(x) + t) == Some(Decoded(x, t))
  {
    var a := EncodeBytes(x.name);
    var b := EncodeBytes(x.desc);
    var c := EncodeU64(x.stickerPrice);
    var d := EncodeU64(x.actualPrice);
    var e := EncodeAssoc(x.assocProduct);
    var r5 := e + t;
    var r4 := d + r5;
    var r3 := c + r4;
    var r2 := b + r3;
    calc {
      EncodeAddOn(x) + t;
      (a + b + c + d + e) + t;
      { Assoc(a + b + c + d, e, t); }
      (a + b + c + d) + r5;
      { Assoc(a + b + c, d, r5); }
      (a + b + c) + r4;
      { Assoc(a + b, c, r4); }
      (a + b) + r3;
      { Assoc(a, b, r3); }
      a + r2;
    }
    BytesRoundTrip(x.name, r2);
    BytesRoundTrip(x.desc, r3);
    U64RoundTrip(x.stickerPrice, r4);
    U64RoundTrip(x.actualPrice, r5);
    AssocRoundTrip(x.assocProduct, t);
    AddOnStep(a + r2, Decoded(x.name, r2), Decoded(x.desc, r3), Decoded(x.stickerPrice, r4),
              Decoded(x.actualPrice, r5), Decoded(x.assocProduct, t));
  }

  lemma {:induction false} AssocRoundTrip(o: Option<Product>, t: seq<Byte>)
    requires o.Some? ==> ProductFits(o.value)
    ensures DecodeAssoc(EncodeAssoc(o) + t) == Some(Decoded(o, t))
  {
    match o
    case None =>
      TagRoundTrip(false, t);
    case Some(p) =>
      var r1 := EncodeProduct(p) + t;
      Assoc(EncodeTag(true), EncodeProduct(p), t);
      TagRoundTrip(true, r1);
      ProductRoundTrip(p, t);
      AssocStep(EncodeTag(true) + r1, r1, Decoded(p, t));
  }

  lemma {:induction false} LineItemRoundTrip(item: LineItem, t: seq<Byte>)
    requires ProductFits(item.0)
    ensures DecodeLineItem(EncodeLineItem(item) + t) == Some(Decoded(item, t))
  {
    var r1 := EncodeU64(item.1) + t;
    Assoc(EncodeProduct(item.0), EncodeU64(item.1), t);
    ProductRoundTrip(item.0, r1);
    U64RoundTrip(item.1, t);
    LineItemStep(EncodeProduct(item.0) + r1, Decoded(item.0, r1), Decoded(item.1, t));
  }

  lemma {:induction false} LineItemsRoundTrip(items: seq<LineItem>, t: seq<Byte>)
    requires LineItemsFit(items)
    ensures DecodeLineItems(EncodeLineItems(items) + t, |items|) == Some(Decoded(items, t))
  {
    if items == [] {
      assert EncodeLineItems(items) + t == t;
    } else {
      var a := EncodeLineItem(items[0]);
      var r1 := EncodeLineItems(items[1..]) + t;
      Assoc(a, EncodeLineItems(items[1..]), t);
      LineItemRoundTrip(items[0], r1);
      LineItemsRoundTrip(items[1..], t);
      LineItemsCons(a + r1, |items|, Decoded(items[0], r1), Decoded(items[1..], t));
      HeadTail(items);
    }
  }

  lemma {:induction false} OrderRoundTrip(o: Order, t: seq<Byte>)
    requires OrderFits(o)
    ensures DecodeOrder(EncodeOrder(o) + t) == Some(Decoded(o, t))
  {
    var a := EncodeDate(o.datePlaced);
    var b := EncodeDate(o.dateShipped);
    var c := EncodeU64(o.subtotal);
    var d := EncodeU64(o.total);
    var e := EncodeU64(|o.products|);
    var f := EncodeLineItems(o.products);
    var g := EncodeBytes(o.notes);
    var r6 := g + t;
    var r5 := f + r6;
    var r4 := e + r5;
    var r3 := d + r4;
    var r2 := c + r3;
    var r1 := b + r2;
    calc {
      EncodeOrder(o) + t;
      (a + b + c + d + e + f + g) + t;
      { Assoc(a + b + c + d + e + f, g, t); }
      (a + b + c + d + e + f) + r6;
      { Assoc(a + b + c + d + e, f, r6); }
      (a + b + c + d + e) + r5;
      { Assoc(a + b + c + d, e, r5); }
      (a + b + c + d) + r4;
      { Assoc(a + b + c, d, r4); }
      (a + b + c) + r3;
      { Assoc(a + b, c, r3); }
      (a + b) + r2;
      { Assoc(a, b, r2); }
      a + r1;
    }
    DateRoundTrip(o.datePlaced, r1);
    DateRoundTrip(o.dateShipped, r2);
    U64RoundTrip(o.subtotal, r3);
    U64RoundTrip(o.total, r4);
    U64RoundTrip(|o.products|, r5);
    LineItemsRoundTrip(o.products, r6);
    BytesRoundTrip(o.notes, t);
    OrderStep(a + r1, Decoded(o.datePlaced, r1), Decoded(o.dateShipped, r2), Decoded(o.subtotal, r3),
              Decoded(o.total, r4), Decoded(|o.products|, r5), Decoded(o.products, r6), Decoded(o.notes, t));
  }

  lemma {:induction false} OrderSeqRoundTrip(os: seq<Order>, t: seq<Byte>)
    requires OrderSeqFits(os)
    ensures DecodeOrderSeq(EncodeOrderSeq(os) + t, |os|) == Some(Decoded(os, t))
  {
    if os == [] {
      assert EncodeOrderSeq(os) + t == t;
    } else {
      var a := EncodeOrder(os[0]);
      var r1 := EncodeOrderSeq(os[1..]) + t;
      Assoc(a, EncodeOrderSeq(os[1..]), t);
      OrderRoundTrip(os[0], r1);
      OrderSeqRoundTrip(os[1..], t);
      OrderSeqCons(a + r1, |os|, Decoded(os[0], r1), Decoded(os[1..], t));
      HeadTail(os);
    }
  }

  /** The round-trip law for a whole store: the same orders, field for field
      and in the same order, whatever bytes follow the encoding. */
  lemma {:induction false} OrdersRoundTrip(os: seq<Order>, t: seq<Byte>)
    requires StoreFits(os)
    ensures DecodeOrders(EncodeOrders(os) + t) == Some(Decoded(os, t))
  {
    var r1 := EncodeOrderSeq(os) + t;
    Assoc(EncodeU64(|os|), EncodeOrderSeq(os), t);
    U64RoundTrip(|os|, r1);
    OrderSeqRoundTrip(os, t);
    OrdersStep(EncodeU64(|os|) + r1, Decoded(|os|, r1), Decoded(os, t));
  }
}
