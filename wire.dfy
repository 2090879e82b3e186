/**
 * The primitive layer of bincode 2's wire format under its standard
 * configuration (little-endian, variable-length integers, no size limit):
 * raw `u8`, varint `u64`, length-prefixed byte strings and the tag byte of an
 * `Option`. Every decoder takes the unread input and returns the value
 * together with the bytes left after it.
 */
module Wire {
  import opened Wrappers

  type Byte = b: int | 0 <= b < 0x100
  type U8 = n: int | 0 <= n < 0x100
  type U64 = n: int | 0 <= n < 0x1_0000_0000_0000_0000

  /** One more than the largest `u64`; also bounds every length bincode can write. */
  const U64_LIMIT: nat := 0x1_0000_0000_0000_0000

  /** Varint markers: values up to 250 are a single byte; 251, 252 and 253
      announce a little-endian `u16`, `u32` and `u64`; 254 announces a `u128`
      and 255 is reserved, so neither of them starts a `u64`. */
  const SINGLE_BYTE_MAX: nat := 250
  const U16_MARKER: Byte := 251
  const U32_MARKER: Byte := 252
  const U64_MARKER: Byte := 253

  /** A decoded value and the input that follows it. */
  datatype Decoded<+T> = Decoded(value: T, rest: seq<Byte>)

  /** Appending `t` to the input of a decoder that succeeded changes nothing
      but what is left over: the decoder never looks past what it consumed. */
  ghost predicate ExtendsBy<T>(r: Option<Decoded<T>>, r': Option<Decoded<T>>, t: seq<Byte>) {
    r.Some? ==> r' == Some(Decoded(r.value.value, r.value.rest + t))
  }

  function Pow256(k: nat): (p: nat)
    ensures p >= 1
  {
    if k == 0 then 1 else 256 * Pow256(k - 1)
  }

  lemma Pow256Widths()
    ensures Pow256(2) == 0x1_0000
    ensures Pow256(4) == 0x1_0000_0000
    ensures Pow256(8) == U64_LIMIT
  {
    assert Pow256(2) == 0x1_0000;
    assert Pow256(4) == 0x1_0000_0000;
    assert Pow256(8) == Pow256(4) * Pow256(4) by {
      assert Pow256(8) == 256 * 256 * 256 * 256 * Pow256(4);
    }
  }

  /** The `k` least significant bytes of `n`, least significant first. */
  function LittleEndian(n: nat, k: nat): (r: seq<Byte>)
    ensures |r| == k
  {
    if k == 0 then [] else [n % 256] + LittleEndian(n / 256, k - 1)
  }

  /** The number whose little-endian bytes are `s`. */
  function FromLittleEndian(s: seq<Byte>): (n: nat)
    ensures n < Pow256(|s|)
  {
    if s == [] then 0
    else
      var high := FromLittleEndian(s[1..]);
      assert high <= Pow256(|s| - 1) - 1;
      s[0] + 256 * high
  }

  lemma {:induction false} LittleEndianRoundTrip(n: nat, k: nat)
    requires n < Pow256(k)
    ensures FromLittleEndian(LittleEndian(n, k)) == n
  {
    if k > 0 {
      var bytes := LittleEndian(n, k);
      assert bytes[1..] == LittleEndian(n / 256, k - 1);
      LittleEndianRoundTrip(n / 256, k - 1);
    }
  }

  // ---------------------------------------------------------------- u8

  /** A `u8` is written as the raw byte, whatever the integer encoding. */
  function EncodeU8(n: U8): seq<Byte> {
    [n]
  }

  function DecodeU8(s: seq<Byte>): (r: Option<Decoded<U8>>)
    ensures r.Some? <==> s != []
    ensures r.Some? ==> r.value.rest == s[1..]
  {
    if s == [] then None else Some(Decoded(s[0], s[1..]))
  }

  // ---------------------------------------------------------------- u64

  function EncodeU64(n: U64): seq<Byte> {
    if n <= SINGLE_BYTE_MAX then [n]
    else if n < 0x1_0000 then [U16_MARKER] + LittleEndian(n, 2)
    else if n < 0x1_0000_0000 then [U32_MARKER] + LittleEndian(n, 4)
    else [U64_MARKER] + LittleEndian(n, 8)
  }

  /** Reads a `k`-byte little-endian integer, `k` being 2, 4 or 8. */
  function DecodeFixed(s: seq<Byte>, k: nat): (r: Option<Decoded<U64>>)
    requires k == 2 || k == 4 || k == 8
    ensures r.Some? <==> |s| >= k
    ensures r.Some? ==> r.value.rest == s[k..]
  {
    if |s| < k then None
    else
      Pow256Widths();
      Some(Decoded(FromLittleEndian(s[..k]), s[k..]))
  }

  /** bincode's varint decoder for a `u64`. It does not insist on the shortest
      form: a wide marker may announce a small value. */
  function DecodeU64(s: seq<Byte>): (r: Option<Decoded<U64>>)
    ensures r.Some? ==> |r.value.rest| < |s|
  {
    if s == [] then None
    else if s[0] <= SINGLE_BYTE_MAX then Some(Decoded(s[0], s[1..]))
    else if s[0] == U16_MARKER then DecodeFixed(s[1..], 2)
    else if s[0] == U32_MARKER then DecodeFixed(s[1..], 4)
    else if s[0] == U64_MARKER then DecodeFixed(s[1..], 8)
    else None
  }

  lemma {:induction false} FixedRoundTrip(n: nat, k: nat, t: seq<Byte>)
    requires k == 2 || k == 4 || k == 8
    requires n < Pow256(k)
    ensures DecodeFixed(LittleEndian(n, k) + t, k) == Some(Decoded(n, t))
  {
    var s := LittleEndian(n, k) + t;
    assert s[..k] == LittleEndian(n, k);
    assert s[k..] == t;
    LittleEndianRoundTrip(n, k);
  }

  /** A value written after marker byte `m` as `k` little-endian bytes reads back. */
  lemma {:induction false} MarkedRoundTrip(n: nat, m: Byte, k: nat, t: seq<Byte>)
    requires (m, k) == (U16_MARKER, 2) || (m, k) == (U32_MARKER, 4) || (m, k) == (U64_MARKER, 8)
    requires n < Pow256(k)
    ensures DecodeU64([m] + LittleEndian(n, k) + t) == Some(Decoded(n, t))
  {
    var s := [m] + LittleEndian(n, k) + t;
    assert s[0] == m;
    assert s[1..] == LittleEndian(n, k) + t;
    FixedRoundTrip(n, k, t);
  }

  lemma {:induction false} U64RoundTrip(n: U64, t: seq<Byte>)
    ensures DecodeU64(EncodeU64(n) + t) == Some(Decoded(n, t))
  {
    Pow256Widths();
    if n <= SINGLE_BYTE_MAX {
      assert (EncodeU64(n) + t)[1..] == t;
    } else if n < 0x1_0000 {
      MarkedRoundTrip(n, U16_MARKER, 2, t);
    } else if n < 0x1_0000_0000 {
      MarkedRoundTrip(n, U32_MARKER, 4, t);
    } else {
      MarkedRoundTrip(n, U64_MARKER, 8, t);
    }
  }

  lemma {:induction false} U64Extension(s: seq<Byte>, t: seq<Byte>)
    ensures ExtendsBy(DecodeU64(s), DecodeU64(s + t), t)
  {
    if DecodeU64(s).Some? {
      var st := s + t;
      assert st[0] == s[0];
      assert st[1..] == s[1..] + t;
      if s[0] > SINGLE_BYTE_MAX {
        var k := if s[0] == U16_MARKER then 2 else if s[0] == U32_MARKER then 4 else 8;
        assert st[1..][..k] == s[1..][..k];
        assert st[1..][k..] == s[1..][k..] + t;
      }
    }
  }

  /** Marker bytes 254 and 255 never start a `u64`. */
  lemma ReservedMarkersRejected(s: seq<Byte>)
    requires s != [] && s[0] > U64_MARKER
    ensures DecodeU64(s) == None
  {
  }

  /** The decoder accepts a value written wider than needed: `[251, 5, 0]`
      reads as 5, which the encoder alone writes as `[5]`. */
  lemma NonCanonicalAccepted()
    ensures DecodeU64([U16_MARKER, 5, 0]) == Some(Decoded(5, []))
    ensures EncodeU64(5) == [5]
  {
    var s: seq<Byte> := [U16_MARKER, 5, 0];
    assert s[1..][..2] == [5, 0];
    assert FromLittleEndian([5, 0]) == 5 by {
      assert [5, 0][1..] == [0];
      assert [0][1..] == [];
    }
  }

  // ---------------------------------------------------------------- byte strings

  /** A `String` (and any `Vec<u8>`) is its length as a `u64` followed by its bytes. */
  function EncodeBytes(b: seq<Byte>): seq<Byte>
    requires |b| < U64_LIMIT
  {
    EncodeU64(|b|) + b
  }

  function DecodeBytes(s: seq<Byte>): (r: Option<Decoded<seq<Byte>>>)
    ensures r.Some? ==> |r.value.rest| < |s| && |r.value.value| < U64_LIMIT
  {
    var len :- DecodeU64(s);
    if |len.rest| < len.value then None
    else Some(Decoded(len.rest[..len.value], len.rest[len.value..]))
  }

  lemma {:induction false} BytesRoundTrip(b: seq<Byte>, t: seq<Byte>)
    requires |b| < U64_LIMIT
    ensures DecodeBytes(EncodeBytes(b) + t) == Some(Decoded(b, t))
  {
    assert EncodeBytes(b) + t == EncodeU64(|b|) + (b + t);
    U64RoundTrip(|b|, b + t);
    assert (b + t)[..|b|] == b;
    assert (b + t)[|b|..] == t;
  }

  lemma {:induction false} BytesExtension(s: seq<Byte>, t: seq<Byte>)
    ensures ExtendsBy(DecodeBytes(s), DecodeBytes(s + t), t)
  {
    U64Extension(s, t);
    if DecodeBytes(s).Some? {
      var len := DecodeU64(s).value;
      var rest := len.rest;
      assert (rest + t)[..len.value] == rest[..len.value];
      assert (rest + t)[len.value..] == rest[len.value..] + t;
    }
  }

  // ---------------------------------------------------------------- option tags

  /** An `Option` starts with a tag byte: 0 for `None`, 1 for `Some`. */
  function EncodeTag(present: bool): seq<Byte> {
    [if present then 1 else 0]
  }

  function DecodeTag(s: seq<Byte>): (r: Option<Decoded<bool>>)
    ensures r.Some? ==> s != [] && r.value.rest == s[1..]
  {
    if s == [] then None
    else if s[0] == 0 then Some(Decoded(false, s[1..]))
    else if s[0] == 1 then Some(Decoded(true, s[1..]))
    else None
  }

  lemma TagRoundTrip(present: bool, t: seq<Byte>)
    ensures DecodeTag(EncodeTag(present) + t) == Some(Decoded(present, t))
  {
    assert (EncodeTag(present) + t)[1..] == t;
  }

  lemma TagExtension(s: seq<Byte>, t: seq<Byte>)
    ensures ExtendsBy(DecodeTag(s), DecodeTag(s + t), t)
  {
    if s != [] {
      assert (s + t)[1..] == s[1..] + t;
    }
  }

  /** A tag byte other than 0 or 1 is an error, never a default. */
  lemma BadTagRejected(s: seq<Byte>)
    requires s != [] && s[0] > 1
    ensures DecodeTag(s) == None
  {
  }
}
