/**
 * How the decoders treat bytes they were not given: appending bytes to an
 * input that decodes changes nothing but what is left over, so a strict
 * prefix of a store's encoding never decodes. Also the malformed inputs the
 * decoders reject, and the injectivity of the store encoding.
 */
module Framing {
  import opened Wrappers
  import opened Wire
  import opened Purchases
  import opened Codec
  import opened RoundTrip

  // ================================================================ sequences
  //
  // The four sequence decoders read `n` items one after another. Their
  // extension law is proved once, for any item decoder `item` and sequence
  // decoder `many` that are related that way.

  /** `many(s, n)` reads `n` items with `item`, each from what the previous one left. */
  ghost predicate ReadsMany<T>(item: seq<Byte> -> Option<Decoded<T>>, many: (seq<Byte>, nat) -> Option<Decoded<seq<T>>>) {
    && (forall s: seq<Byte> {:trigger many(s, 0)} :: many(s, 0) == Some(Decoded([], s)))
    && (forall s: seq<Byte>, n: nat {:trigger many(s, n), item(s)} ::
          n > 0 ==>
            (many(s, n) ==
               match item(s)
               case None => None
               case Some(first) =>
                 match many(first.rest, n - 1)
                 case None => None
                 case Some(others) => Some(Decoded([first.value] + others.value, others.rest))))
  }

  /** Every item read consumes at least one byte. */
  ghost predicate Consumes<T>(item: seq<Byte> -> Option<Decoded<T>>) {
    forall s: seq<Byte> :: item(s).Some? ==> |item(s).value.rest| < |s|
  }

  /** `item` satisfies the extension law by `t` on inputs of at most `bound` bytes. */
  ghost predicate ExtendsUpTo<T>(item: seq<Byte> -> Option<Decoded<T>>, bound: nat, t: seq<Byte>) {
    forall u: seq<Byte> {:trigger item(u + t)} :: |u| <= bound ==> ExtendsBy(item(u), item(u + t), t)
  }

  lemma {:induction false} ManyExtension<T>(item: seq<Byte> -> Option<Decoded<T>>,
                                            many: (seq<Byte>, nat) -> Option<Decoded<seq<T>>>,
                                            s: seq<Byte>, n: nat, t: seq<Byte>)
    requires ReadsMany(item, many) && Consumes(item) && ExtendsUpTo(item, |s|, t)
    ensures ExtendsBy(many(s, n), many(s + t, n), t)
    decreases n
  {
    if n > 0 && many(s, n).Some? {
      var first := item(s).value;
      assert ExtendsBy(item(s), item(s + t), t);
      ManyExtension(item, many, first.rest, n - 1, t);
    }
  }

  // ================================================================ extension

  lemma {:induction false} DateExtension(s: seq<Byte>, t: seq<Byte>)
    ensures ExtendsBy(DecodeDate(s), DecodeDate(s + t), t)
  {
    if DecodeDate(s).Some? {
      var month := DecodeU8(s).value;
      var day := DecodeU8(month.rest).value;
      var year := DecodeU64(day.rest).value;
      assert (s + t)[1..] == month.rest + t;
      assert (month.rest + t)[1..] == day.rest + t;
      U64Extension(day.rest, t);
      DateStep(s + t, Decoded(month.value, month.rest + t), Decoded(day.value, day.rest + t),
               Decoded(year.value, year.rest + t));
    }
  }

  lemma {:induction false} ProductExtension(s: seq<Byte>, t: seq<Byte>)
    ensures ExtendsBy(DecodeProduct(s), DecodeProduct(s + t), t)
    decreases |s|, 1
  {
    if DecodeProduct(s).Some? {
      var name := DecodeBytes(s).value;
      var desc := DecodeBytes(name.rest).value;
      var base := DecodeU64(desc.rest).value;
      var sticker := DecodeU64(base.rest).value;
      var items := DecodeItems(sticker.rest).value;
      var addOns := DecodeAddOns(items.rest).value;
      BytesExtension(s, t);
      BytesExtension(name.rest, t);
      U64Extension(desc.rest, t);
      U64Extension(base.rest, t);
      ItemsExtension(sticker.rest, t);
      AddOnsExtension(items.rest, t);
      ProductStep(s + t, Decoded(name.value, name.rest + t), Decoded(desc.value, desc.rest + t),
                  Decoded(base.value, base.rest + t), Decoded(sticker.value, sticker.rest + t),
                  Decoded(items.value, items.rest + t), Decoded(addOns.value, addOns.rest + t));
    }
  }

  lemma {:induction false} ItemsExtension(s: seq<Byte>, t: seq<Byte>)
    ensures ExtendsBy(DecodeItems(s), DecodeItems(s + t), t)
    decreases |s|, 0
  {
    TagExtension(s, t);
    if DecodeItems(s).Some? && DecodeTag(s).value.value {
      var tag := DecodeTag(s).value;
      var len := DecodeU64(tag.rest).value;
      var ps := DecodeProductSeq(len.rest, len.value).value;
      U64Extension(tag.rest, t);
      ProductSeqExtension(len.rest, len.value, t);
      ItemsStep(s + t, tag.rest + t, Decoded(len.value, len.rest + t), Decoded(ps.value, ps.rest + t));
    }
  }

  lemma {:induction false} ProductSeqExtension(s: seq<Byte>, n: nat, t: seq<Byte>)
    ensures ExtendsBy(DecodeProductSeq(s, n), DecodeProductSeq(s + t, n), t)
    decreases |s|, 2
  {
    forall u: seq<Byte> | |u| <= |s|
      ensures ExtendsBy(DecodeProduct(u), DecodeProduct(u + t), t)
    {
      ProductExtension(u, t);
    }
    ManyExtension(DecodeProduct, DecodeProductSeq, s, n, t);
  }

  lemma {:induction false} AddOnsExtension(s: seq<Byte>, t: seq<Byte>)
    ensures ExtendsBy(DecodeAddOns(s), DecodeAddOns(s + t), t)
    decreases |s|, 0
  {
    TagExtension(s, t);
    if DecodeAddOns(s).Some? && DecodeTag(s).value.value {
      var tag := DecodeTag(s).value;
      var len := DecodeU64(tag.rest).value;
      var addOns := DecodeAddOnSeq(len.rest, len.value).value;
      U64Extension(tag.rest, t);
      AddOnSeqExtension(len.rest, len.value, t);
      AddOnsStep(s + t, tag.rest + t, Decoded(len.value, len.rest + t), Decoded(addOns.value, addOns.rest + t));
    }
  }

  lemma {:induction false} AddOnSeqExtension(s: seq<Byte>, n: nat, t: seq<Byte>)
    ensures ExtendsBy(DecodeAddOnSeq(s, n), DecodeAddOnSeq(s + t, n), t)
    decreases |s|, 2
  {
    forall u: seq<Byte> | |u| <= |s|
      ensures ExtendsBy(DecodeAddOn(u), DecodeAddOn(u + t), t)
    {
      AddOnExtension(u, t);
    }
    ManyExtension(DecodeAddOn, DecodeAddOnSeq, s, n, t);
  }

  lemma {:induction false} AddOnExtension(s: seq<Byte>, t: seq<Byte>)
    ensures ExtendsBy(DecodeAddOn(s), DecodeAddOn(s + t), t)
    decreases |s|, 1
  {
    if DecodeAddOn(s).Some? {
      var name := DecodeBytes(s).value;
      var desc := DecodeBytes(name.rest).value;
      var sticker := DecodeU64(desc.rest).value;
      var actual := DecodeU64(sticker.rest).value;
      var assoc := DecodeAssoc(actual.rest).value;
      BytesExtension(s, t);
      BytesExtension(name.rest, t);
      U64Extension(desc.rest, t);
      U64Extension(sticker.rest, t);
      AssocExtension(actual.rest, t);
      AddOnStep(s + t, Decoded(name.value, name.rest + t), Decoded(desc.value, desc.rest + t),
                Decoded(sticker.value, sticker.rest + t), Decoded(actual.value, actual.rest + t),
                Decoded(assoc.value, assoc.rest + t));
    }
  }

  lemma {:induction false} AssocExtension(s: seq<Byte>, t: seq<Byte>)
    ensures ExtendsBy(DecodeAssoc(s), DecodeAssoc(s + t), t)
    decreases |s|, 0
  {
    TagExtension(s, t);
    if DecodeAssoc(s).Some? && DecodeTag(s).value.value {
      var tag := DecodeTag(s).value;
      var p := DecodeProduct(tag.rest).value;
      ProductExtension(tag.rest, t);
      AssocStep(s + t, tag.rest + t, Decoded(p.value, p.rest + t));
    }
  }

  lemma {:induction false} LineItemExtension(s: seq<Byte>, t: seq<Byte>)
    ensures ExtendsBy(DecodeLineItem(s), DecodeLineItem(s + t), t)
  {
    if DecodeLineItem(s).Some? {
      var product := DecodeProduct(s).value;
      var paid := DecodeU64(product.rest).value;
      ProductExtension(s, t);
      U64Extension(product.rest, t);
      LineItemStep(s + t, Decoded(product.value, product.rest + t), Decoded(paid.value, paid.rest + t));
    }
  }

  lemma {:induction false} LineItemsExtension(s: seq<Byte>, n: nat, t: seq<Byte>)
    ensures ExtendsBy(DecodeLineItems(s, n), DecodeLineItems(s + t, n), t)
  {
    forall u: seq<Byte> | |u| <= |s|
      ensures ExtendsBy(DecodeLineItem(u), DecodeLineItem(u + t), t)
    {
      LineItemExtension(u, t);
    }
    ManyExtension(DecodeLineItem, DecodeLineItems, s, n, t);
  }

  lemma {:induction false} OrderExtension(s: seq<Byte>, t: seq<Byte>)
    ensures ExtendsBy(DecodeOrder(s), DecodeOrder(s + t), t)
  {
    if DecodeOrder(s).Some? {
      var placed := DecodeDate(s).value;
      var shipped := DecodeDate(placed.rest).value;
      var subtotal := DecodeU64(shipped.rest).value;
      var total := DecodeU64(subtotal.rest).value;
      var len := DecodeU64(total.rest).value;
      var items := DecodeLineItems(len.rest, len.value).value;
      var notes := DecodeBytes(items.rest).value;
      DateExtension(s, t);
      DateExtension(placed.rest, t);
      U64Extension(shipped.rest, t);
      U64Extension(subtotal.rest, t);
      U64Extension(total.rest, t);
      LineItemsExtension(len.rest, len.value, t);
      BytesExtension(items.rest, t);
      OrderStep(s + t, Decoded(placed.value, placed.rest + t), Decoded(shipped.value, shipped.rest + t),
                Decoded(subtotal.value, subtotal.rest + t), Decoded(total.value, total.rest + t),
                Decoded(len.value, len.rest + t), Decoded(items.value, items.rest + t),
                Decoded(notes.value, notes.rest + t));
    }
  }

  lemma {:induction false} OrderSeqExtension(s: seq<Byte>, n: nat, t: seq<Byte>)
    ensures ExtendsBy(DecodeOrderSeq(s, n), DecodeOrderSeq(s + t, n), t)
  {
    forall u: seq<Byte> | |u| <= |s|
      ensures ExtendsBy(DecodeOrder(u), DecodeOrder(u + t), t)
    {
      OrderExtension(u, t);
    }
    ManyExtension(DecodeOrder, DecodeOrderSeq, s, n, t);
  }

  /** Bytes after a store that decodes are left unread and change nothing. */
  lemma {:induction false} OrdersExtension(s: seq<Byte>, t: seq<Byte>)
    ensures ExtendsBy(DecodeOrders(s), DecodeOrders(s + t), t)
  {
    if DecodeOrders(s).Some? {
      var len := DecodeU64(s).value;
      var os := DecodeOrderSeq(len.rest, len.value).value;
      U64Extension(s, t);
      OrderSeqExtension(len.rest, len.value, t);
      OrdersStep(s + t, Decoded(len.value, len.rest + t), Decoded(os.value, os.rest + t));
    }
  }

  // ================================================================ rejection

  /** A decoder that reads all of `e` and satisfies the extension law on a
      strict prefix of `e` rejects that prefix. */
  lemma PrefixRejected<T>(dec: seq<Byte> -> Option<Decoded<T>>, e: seq<Byte>, k: nat, v: T)
    requires k < |e|
    requires dec(e) == Some(Decoded(v, []))
    requires ExtendsBy(dec(e[..k]), dec(e[..k] + e[k..]), e[k..])
    ensures dec(e[..k]) == None
  {
    assert e[..k] + e[k..] == e;
    assert |e[k..]| > 0;
  }

  /** A strict prefix of a store's encoding never decodes: the decoder needs
      every byte that was written. */
  lemma TruncatedStoreRejected(os: seq<Order>, k: nat)
    requires StoreFits(os)
    requires k < |EncodeOrders(os)|
    ensures DecodeOrders(EncodeOrders(os)[..k]) == None
  {
    var e := EncodeOrders(os);
    assert e + [] == e;
    OrdersRoundTrip(os, []);
    OrdersExtension(e[..k], e[k..]);
    PrefixRejected(DecodeOrders, e, k, os);
  }

  /** What the four scalar fields of a product leave, whatever follows them. */
  lemma {:induction false} ProductHeadRead(p: Product, t: seq<Byte>)
    requires TextFits(p.name) && TextFits(p.desc)
    ensures var s := EncodeProductHead(p) + t;
      && DecodeBytes(s) == Some(Decoded(p.name, EncodeBytes(p.desc) + EncodeU64(p.basePrice) + EncodeU64(p.stickerPrice) + t))
      && DecodeBytes(EncodeBytes(p.desc) + EncodeU64(p.basePrice) + EncodeU64(p.stickerPrice) + t)
           == Some(Decoded(p.desc, EncodeU64(p.basePrice) + EncodeU64(p.stickerPrice) + t))
      && DecodeU64(EncodeU64(p.basePrice) + EncodeU64(p.stickerPrice) + t)
           == Some(Decoded(p.basePrice, EncodeU64(p.stickerPrice) + t))
      && DecodeU64(EncodeU64(p.stickerPrice) + t) == Some(Decoded(p.stickerPrice, t))
  {
    var a := EncodeBytes(p.name);
    var b := EncodeBytes(p.desc);
    var c := EncodeU64(p.basePrice);
    var d := EncodeU64(p.stickerPrice);
    calc {
      EncodeProductHead(p) + t;
      (a + b + c + d) + t;
      { Assoc(a + b + c, d, t); Assoc(a + b, c, d + t); Assoc(a, b, c + (d + t)); }
      a + (b + (c + (d + t)));
    }
    Assoc(b + c, d, t);
    Assoc(b, c, d + t);
    Assoc(c, d, t);
    BytesRoundTrip(p.name, b + c + d + t);
    BytesRoundTrip(p.desc, c + d + t);
    U64RoundTrip(p.basePrice, d + t);
    U64RoundTrip(p.stickerPrice, t);
  }

  /** What the four scalar fields of an add-on leave, whatever follows them. */
  lemma {:induction false} AddOnHeadRead(x: AddOn, t: seq<Byte>)
    requires TextFits(x.name) && TextFits(x.desc)
    ensures var s := EncodeAddOnHead(x) + t;
      && DecodeBytes(s) == Some(Decoded(x.name, EncodeBytes(x.desc) + EncodeU64(x.stickerPrice) + EncodeU64(x.actualPrice) + t))
      && DecodeBytes(EncodeBytes(x.desc) + EncodeU64(x.stickerPrice) + EncodeU64(x.actualPrice) + t)
           == Some(Decoded(x.desc, EncodeU64(x.stickerPrice) + EncodeU64(x.actualPrice) + t))
      && DecodeU64(EncodeU64(x.stickerPrice) + EncodeU64(x.actualPrice) + t)
           == Some(Decoded(x.stickerPrice, EncodeU64(x.actualPrice) + t))
      && DecodeU64(EncodeU64(x.actualPrice) + t) == Some(Decoded(x.actualPrice, t))
  {
    var a := EncodeBytes(x.name);
    var b := EncodeBytes(x.desc);
    var c := EncodeU64(x.stickerPrice);
    var d := EncodeU64(x.actualPrice);
    calc {
      EncodeAddOnHead(x) + t;
      (a + b + c + d) + t;
      { Assoc(a + b + c, d, t); Assoc(a + b, c, d + t); Assoc(a, b, c + (d + t)); }
      a + (b + (c + (d + t)));
    }
    Assoc(b + c, d, t);
    Assoc(b, c, d + t);
    Assoc(c, d, t);
    BytesRoundTrip(x.name, b + c + d + t);
    BytesRoundTrip(x.desc, c + d + t);
    U64RoundTrip(x.stickerPrice, d + t);
    U64RoundTrip(x.actualPrice, t);
  }

  /** A product whose sub-products tag is neither 0 nor 1 does not decode,
      however its four scalar fields were written (varints wider than needed
      included): the read stops at the tag. */
  lemma BadItemsTagRejected(s: seq<Byte>, name: Decoded<seq<Byte>>, desc: Decoded<seq<Byte>>,
                            base: Decoded<U64>, sticker: Decoded<U64>)
    requires DecodeBytes(s) == Some(name) && DecodeBytes(name.rest) == Some(desc)
    requires DecodeU64(desc.rest) == Some(base) && DecodeU64(base.rest) == Some(sticker)
    requires sticker.rest != [] && sticker.rest[0] > 1
    ensures DecodeProduct(s) == None
  {
    BadTagRejected(sticker.rest);
  }

  /** A product whose add-ons tag is neither 0 nor 1 does not decode, whatever
      scalar fields and sub-products were read before it. */
  lemma BadAddOnsTagRejected(s: seq<Byte>, name: Decoded<seq<Byte>>, desc: Decoded<seq<Byte>>,
                             base: Decoded<U64>, sticker: Decoded<U64>, items: Decoded<Option<ProductVec>>)
    requires DecodeBytes(s) == Some(name) && DecodeBytes(name.rest) == Some(desc)
    requires DecodeU64(desc.rest) == Some(base) && DecodeU64(base.rest) == Some(sticker)
    requires DecodeItems(sticker.rest) == Some(items)
    requires items.rest != [] && items.rest[0] > 1
    ensures DecodeProduct(s) == None
  {
    BadTagRejected(items.rest);
  }

  /** An add-on whose associated-product tag is neither 0 nor 1 does not
      decode, however its four scalar fields were written. */
  lemma BadAssocTagRejected(s: seq<Byte>, name: Decoded<seq<Byte>>, desc: Decoded<seq<Byte>>,
                            sticker: Decoded<U64>, actual: Decoded<U64>)
    requires DecodeBytes(s) == Some(name) && DecodeBytes(name.rest) == Some(desc)
    requires DecodeU64(desc.rest) == Some(sticker) && DecodeU64(sticker.rest) == Some(actual)
    requires actual.rest != [] && actual.rest[0] > 1
    ensures DecodeAddOn(s) == None
  {
    BadTagRejected(actual.rest);
  }

  // ================================================================ injectivity

  /** Different stores are written as different bytes. */
  lemma OrdersEncodingInjective(os: seq<Order>, os': seq<Order>)
    requires StoreFits(os) && StoreFits(os')
    requires EncodeOrders(os) == EncodeOrders(os')
    ensures os == os'
  {
    OrdersRoundTrip(os, []);
    OrdersRoundTrip(os', []);
  }

  /** `None` and `Some` of an empty list are different bytes and decode as
      themselves; neither becomes a default for the other. */
  lemma EmptyListIsNotAbsent(t: seq<Byte>)
    ensures EncodeItems(None) == [0] && EncodeItems(Some(ProductVec([]))) == [1, 0]
    ensures DecodeItems([0] + t) == Some(Decoded(None, t))
    ensures DecodeItems([1, 0] + t) == Some(Decoded(Some(ProductVec([])), t))
    ensures EncodeAddOns(None) == [0] && EncodeAddOns(Some(AddOnVec([]))) == [1, 0]
    ensures DecodeAddOns([0] + t) == Some(Decoded(None, t))
    ensures DecodeAddOns([1, 0] + t) == Some(Decoded(Some(AddOnVec([])), t))
  {
    ItemsRoundTrip(None, t);
    ItemsRoundTrip(Some(ProductVec([])), t);
    AddOnsRoundTrip(None, t);
    AddOnsRoundTrip(Some(AddOnVec([])), t);
  }
}
