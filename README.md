# Purchase tracker: order records and their binary store

This project models the core of a small Rust command-line program that records
purchase orders and keeps them in a binary file. Each order holds:

- two dates (placed and shipped);
- a subtotal and a total in cents;
- a list of products, each with the amount actually paid for it;
- free-form notes.

A product holds a name, a description, a base price and a sticker price. It may
also have a list of sub-products and a list of add-ons. An add-on may in turn
have an associated product. Together these form an owned tree with no sharing.
The program saves the whole list of orders with bincode 2 under its standard
configuration. New mode writes a list holding the one order that was entered.
Update mode reads a stored list, appends one order and writes the result to a
new file.

The model is split by concern:

- `purchases.dfy` holds the records as datatypes.
- `wire.dfy` holds bincode's primitive encodings: a raw `u8`; a
  variable-length little-endian `u64`; a length-prefixed byte string; the tag
  byte of an `Option`.
- `codec.dfy` holds the derived `Encode`/`Decode` for every record, as
  functions. Decoding is a partial function over bytes that returns the value
  and the bytes left over.
- `roundtrip.dfy` proves that decoding the encoding of any value gives that
  value back, whatever bytes follow it.
- `framing.dfy` proves these things about how records are framed:
  - appending bytes to a decodable input changes only what is left over;
  - a strict prefix of a stored list never decodes;
  - the scalar fields of a product and of an add-on are read in declaration
    order, each leaving the rest for the next;
  - an `Option` tag other than 0 or 1 is rejected, however the fields before
    it were written;
  - `None` and `Some` of an empty list stay distinct;
  - two different stored lists are never written as the same bytes.
- `text.dfy` and `dates.dfy` model the date-line parser of `date_cli` and
  `Date::to_string`. They also model the standard-library pieces these rely
  on: `trim`, `split('/')`, `parse::<u8>`/`parse::<u64>` and the decimal
  `to_string`.
- `render.dfy` models the `to_string` of products, add-ons and orders. Each
  is a function that specifies the text, plus a method that builds the text
  by pushing pieces in loops, as the source does.
- `store.dfy` models the two save modes over a file system. The file system
  is a class holding a map from path to bytes.

Where the written description of the program and its code disagree, the model
follows the code:

- Numbers are written as bincode's variable-length integers, not as
  fixed-width integers.
- Update mode creates the output file before it opens the input file. A
  missing or undecodable input therefore still leaves an empty output file
  behind.
- New mode writes a list of one order, not an empty list.
- The help text says that giving the same file as input and output may
  truncate it and lose every order. In the code this cannot happen: the
  output file is created with `File::create_new`, which fails on an existing
  path before the input is opened. If the path does not exist, the file just
  created is empty and does not decode.

The decoder accepts a `u64` written wider than necessary. For example,
`[251, 5, 0]` reads as 5. bincode's decoder does the same. Because of this,
the round trip holds from values to bytes, not from bytes to values.
Trailing bytes after a stored list are ignored, as `decode_from_std_read`
ignores them.

## Model

| member | source | states |
|---|---|---|
| `Wire.U64RoundTrip` | src/main.rs:518 | a `u64` written as a standard-configuration varint reads back as the same value, whatever follows |
| `Wire.U64Extension` | src/main.rs:518 | reading a varint never looks past the bytes it consumes |
| `Wire.ReservedMarkersRejected` | src/main.rs:518 | marker bytes 254 and 255 never start a `u64` |
| `Wire.NonCanonicalAccepted` | src/main.rs:518 | the decoder accepts a value written wider than the encoder would write it |
| `Wire.BytesRoundTrip` | src/main.rs:518 | a length-prefixed `String` reads back as the same bytes |
| `Wire.TagRoundTrip` | src/main.rs:518 | an `Option` tag reads back as the same presence flag |
| `Wire.BadTagRejected` | src/main.rs:518 | an `Option` tag byte other than 0 or 1 is an error |
| `Codec.DecodeProduct` | src/main.rs:68-83 | decoding a product consumes at least one byte, and every string and list it returns fits a `u64` length |
| `Codec.DecodeOrders` | src/main.rs:548 | decoding a list of orders consumes at least one byte and returns a list that fits |
| `RoundTrip.DateRoundTrip` | src/main.rs:6-11 | a date decodes to the same month, day and year |
| `RoundTrip.ProductRoundTrip` | src/main.rs:68-83 | a product tree of any depth decodes to the same tree, field for field |
| `RoundTrip.ItemsRoundTrip` | src/main.rs:74 | the optional sub-product list decodes to the same variant, and to the same products in the same order when present |
| `RoundTrip.ProductSeqRoundTrip` | src/main.rs:74 | a list of sub-products decodes to the same products in the same order |
| `RoundTrip.AddOnsRoundTrip` | src/main.rs:82 | the optional add-on list decodes to the same variant and the same add-ons in the same order |
| `RoundTrip.AddOnSeqRoundTrip` | src/main.rs:82 | a list of add-ons decodes to the same add-ons in the same order |
| `RoundTrip.AddOnRoundTrip` | src/main.rs:247-261 | an add-on decodes to the same add-on, associated product included |
| `RoundTrip.AssocRoundTrip` | src/main.rs:260 | the optional associated product decodes as absent when it was absent, and as the same product when present |
| `RoundTrip.LineItemRoundTrip` | src/main.rs:375 | a (product, amount paid) pair decodes to the same pair |
| `RoundTrip.LineItemsRoundTrip` | src/main.rs:375 | an order's lines decode to the same lines in the same order |
| `RoundTrip.OrderRoundTrip` | src/main.rs:359-378 | an order decodes to the same order, notes included |
| `RoundTrip.OrderSeqRoundTrip` | src/main.rs:529-530 | a list of orders decodes to the same orders in the same order |
| `RoundTrip.OrdersRoundTrip` | src/main.rs:530 | decoding the bytes written for any list of orders gives the same list, whatever follows |
| `Framing.ProductExtension` | src/main.rs:68-83 | appending bytes to an input from which a product decodes changes only what is left over |
| `Framing.OrdersExtension` | src/main.rs:548 | appending bytes to a decodable store changes only what is left over |
| `Framing.TruncatedStoreRejected` | src/main.rs:548-551 | a strict prefix of the bytes written for a list of orders never decodes |
| `Framing.ProductHeadRead` | src/main.rs:69-73 | a product's encoding starts with name, description, base price and sticker price, read in that order |
| `Framing.AddOnHeadRead` | src/main.rs:249-252 | an add-on's encoding starts with name, description, sticker price and actual price, read in that order |
| `Framing.BadItemsTagRejected` | src/main.rs:74 | every input whose four scalar product fields decode (in any width the decoder accepts) and whose next byte is above 1 does not decode as a product |
| `Framing.BadAddOnsTagRejected` | src/main.rs:82 | every input whose scalar product fields and sub-product list decode and whose next byte is above 1 does not decode as a product |
| `Framing.BadAssocTagRejected` | src/main.rs:260 | every input whose four scalar add-on fields decode (in any width the decoder accepts) and whose next byte is above 1 does not decode as an add-on |
| `Framing.OrdersEncodingInjective` | src/main.rs:530 | different lists of orders are written as different bytes |
| `Framing.EmptyListIsNotAbsent` | src/main.rs:74-82 | `None` and `Some([])` are written differently and each decodes as itself |
| `Text.Split` | src/main.rs:35 | the fields of `split('/')` contain no `/`, there is at least one, and joining them gives the line back |
| `Text.SplitJoin` | src/main.rs:35 | splitting fields joined by `/` gives the fields back |
| `Text.TrimSpec` | src/main.rs:35 | what `trim` leaves neither starts nor ends with white space |
| `Text.TrimRemovesSurrounding` | src/main.rs:35 | `trim` removes exactly the white space around the text |
| `Text.ParseUnsigned` | src/main.rs:38 | `parse` succeeds exactly on an optional `+` and one or more digits whose value fits the type |
| `Text.Decimal` | src/main.rs:16 | an integer's `to_string` is digits without leading zeros, with that integer as value |
| `Text.ParseDecimal` | src/main.rs:16-20 | an integer's decimal text parses back to it |
| `Dates.DateToString` | src/main.rs:13-22 | builds `month/day/year` by successive pushes |
| `Dates.DateStringSplit` | src/main.rs:14-22 | a date's text has exactly three `/`-separated fields: month, day and year |
| `Dates.FieldValue` | src/main.rs:38-53 | a present field parses into its type or fails as that field; a missing field stays 0 |
| `Dates.ParseDateLine` | src/main.rs:32-60 | the loop over the split fields gives the date the line denotes, or the first failure |
| `Dates.DateFieldMapping` | src/main.rs:35-57 | a line gives date `d` exactly when fields 0, 1 and 2, trimmed, parse to `d`'s month, day and year, and none is 0 |
| `Dates.FewFieldsRejected` | src/main.rs:32-34 | a line with fewer than three fields never gives a date |
| `Dates.ExtraFieldsIgnored` | src/main.rs:55 | fields after the third change nothing |
| `Dates.OutOfRangeRejected` | src/main.rs:38-47 | a month or day above 255 fails as that field |
| `Dates.DateLineRoundTrip` | src/main.rs:58-60 | a date's text parses back to it, unless a field is 0, which is refused |
| `Render.PriceRoundTrip` | src/main.rs:208-215 | a price's text reads back as the same number of cents; the cents part is below 100 |
| `Render.PriceStringInjective` | src/main.rs:208-215 | different prices are shown differently |
| `Render.CentsNotPadded` | src/main.rs:210-211 | the cents are not zero-padded: 105 cents shows as `1.5` |
| `Render.NumberedInOrder` | src/main.rs:221-227 | child `k` is listed under index `k`, after the first `k` children and before the later ones |
| `Render.ProductEntries` | src/main.rs:221-227 | the `i`-th sub-product entry is the `i`-th sub-product's text |
| `Render.AddOnEntries` | src/main.rs:234-240 | the `i`-th add-on entry is the `i`-th add-on's text |
| `Render.LineEntries` | src/main.rs:406-415 | the `i`-th order line shows the `i`-th amount paid, then that line's product |
| `Render.ProductBlocksShown` | src/main.rs:217-242 | the "Sub-products" block appears exactly when `items` is `Some`, and the "Add-ons" block exactly when `add_ons` is `Some` |
| `Render.AssocShown` | src/main.rs:347-354 | an add-on shows an associated product exactly when it has one |
| `Render.NotesNotShown` | src/main.rs:392-417 | an order's text does not depend on its notes |
| `Render.RenderProduct` | src/main.rs:202-244 | pushing the pieces of a product gives its specified text |
| `Render.RenderProducts` | src/main.rs:221-227 | the enumerate loop lists every sub-product in order |
| `Render.RenderAddOns` | src/main.rs:234-240 | the enumerate loop lists every add-on in order |
| `Render.RenderAddOn` | src/main.rs:333-356 | pushing the pieces of an add-on gives its specified text |
| `Render.RenderOrder` | src/main.rs:392-417 | pushing the pieces of an order gives its specified text |
| `Render.RenderLines` | src/main.rs:406-415 | the enumerate loop lists every line of the order in order |
| `Store.FileSystem.CreateNew` | src/main.rs:525 | creates an empty file exactly when the path is free, and otherwise changes nothing |
| `Store.FileSystem.Open` | src/main.rs:544 | gives the file's contents exactly when it exists |
| `Store.FileSystem.Write` | src/main.rs:530 | the written file's contents become the encoded bytes |
| `Store.Appended` | src/main.rs:558 | pushing one order is possible exactly while the list can grow, and the result fits |
| `Store.NewStore` | src/main.rs:524-536 | new mode has exactly the effect `NewStoreEffect` describes |
| `Store.UpdateStore` | src/main.rs:539-565 | update mode has exactly the effect `UpdateStoreEffect` describes |
| `Store.NewStoreWritesOneOrder` | src/main.rs:525-530 | new mode succeeds exactly when the path is free, adds only that file, and the file decodes as a list of exactly the one order |
| `Store.UpdateAppendsOne` | src/main.rs:548-559 | after a successful update, the output decodes as the stored list with one more order: length + 1, earlier orders unchanged and in place, the new one last; other files are unchanged |
| `Store.UpdateFailures` | src/main.rs:540-551 | an existing output path fails and changes nothing; a missing input, or one that does not decode, fails and leaves an empty output file |
| `Store.SamePathNeverOverwrites` | src/main.rs:540-548 | using one path as both input and output always fails and never loses a stored list |

## Left out

- The interactive prompting is not modelled. This covers `product_cli`, `add_on_cli`, `order_cli`, their yes/no retry loops, and the `read_line` in `date_cli`. It is console I/O. The order that was entered is a parameter of the save modes, and the date line is a parameter of the parser.
- Argument dispatch, the usage and help texts, panic messages and console output are not modelled. This includes the listing of stored orders that update mode prints. Each panic becomes an error value.
- The commented-out legacy code after `main` is not modelled.
- UTF-8 validation of decoded strings is not modelled. Text fields are opaque byte sequences.
- bincode's reader and writer plumbing and the details of its error type are not modelled. A decode either fails or gives a value.
- `Store.FileSystem.Write` always succeeds. A failing write, and the panic the program raises on it, are not modelled.
- `Store.StoreFull` is not in the source. A `Vec` cannot hold 2^64 orders, so appending to a list of 2^64 − 1 orders fails with this error. The Rust program would abort before it reached that size.
- Every string and list in a record has fewer than 2^64 elements, as every Rust value does. The encoders require this through the `…Fits` predicates. The decoders guarantee it.
- No arithmetic link is assumed between base price, sticker price, add-on prices, subtotal, total and the amounts paid. The source deliberately enforces none.
- Concurrent runs against the same file, and OS-level file errors other than "exists" and "does not exist", are not modelled.
