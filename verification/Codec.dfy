/** Canonical binary codecs in the Borsh format, built from small ones that are. */
module Codec {
  import opened Numbers
  import opened Nonlinear

  type bytes32 = s: seq<u8> | |s| == 32 witness seq(32, _ => 0)
  type bytes64 = s: seq<u8> | |s| == 64 witness seq(64, _ => 0)
  /** A length-prefixed sequence: its length must fit the 32-bit prefix. */
  type Vec<T> = s: seq<T> | |s| < U32_LIMIT

  type Parsed<+T> = Option<(T, seq<u8>)>

  datatype Codec<!T> = Codec(enc: T -> seq<u8>, dec: seq<u8> -> Parsed<T>)

  /** Decoding inverts encoding whatever follows, and accepts nothing but encodings. */
  ghost predicate Canonical<T(!new)>(c: Codec<T>) {
    && (forall v: T, rest: seq<u8> :: c.dec(c.enc(v) + rest) == Some((v, rest)))
    && (forall b: seq<u8> :: c.dec(b).Some? ==> b == c.enc(c.dec(b).value.0) + c.dec(b).value.1)
  }

  // ---- Little-endian integers ----

  function LeEnc(n: nat, w: nat): (b: seq<u8>)
    ensures |b| == w
  {
    if w == 0 then [] else [n % 256] + LeEnc(n / 256, w - 1)
  }

  /** Little-endian: the i-th byte counts the i-th power of 256. */
  lemma {:induction false} LeBytes(n: nat, w: nat, i: nat)
    requires i < w
    ensures LeEnc(n, w)[i] == n / Pow(256, i) % 256
  {
    if i > 0 {
      LeBytes(n / 256, w - 1, i - 1);
      DivDiv(n, 256, Pow(256, i - 1));
    }
  }

  lemma DivDiv(n: nat, a: int, b: int)
    requires 0 < a && 0 < b
    ensures 0 < a * b && n / a / b == n / (a * b)
  {
    MulMono(1, a, b);
    var (q, r) := (n / a, n % a);
    var (q', r') := (q / b, q % b);
    DivBounds(n, a);
    DivBounds(q, b);
    assert n == q' * (a * b) + (r' * a + r) by {
      assert n == q * a + r && q == q' * b + r';
      assert (q' * b + r') * a == q' * (a * b) + r' * a;
    }
    MulMono(r', b - 1, a);
    assert (b - 1) * a == a * b - a;
    MulMono(0, r', a);
    DivUnique(n, a * b, q', r' * a + r);
  }

  function LeVal(b: seq<u8>): nat {
    if b == [] then 0 else b[0] + 256 * LeVal(b[1..])
  }

  lemma {:induction false} LeRoundTrip(n: nat, w: nat)
    requires n < Pow(256, w)
    ensures LeVal(LeEnc(n, w)) == n
  {
    if w > 0 {
      LeRoundTrip(n / 256, w - 1);
      assert LeEnc(n, w)[1..] == LeEnc(n / 256, w - 1);
    }
  }

  lemma {:induction false} LeCanonical(b: seq<u8>)
    ensures LeVal(b) < Pow(256, |b|) && LeEnc(LeVal(b), |b|) == b
  {
    if b != [] {
      LeCanonical(b[1..]);
      DivUnique(LeVal(b), 256, LeVal(b[1..]), b[0]);
      assert b == [b[0]] + b[1..];
    }
  }

  lemma Pow256Values(w: nat)
    requires w in {1, 2, 4, 8, 16}
    ensures w == 1 ==> Pow(256, w) == U8_LIMIT
    ensures w == 2 ==> Pow(256, w) == U16_LIMIT
    ensures w == 4 ==> Pow(256, w) == U32_LIMIT
    ensures w == 8 ==> Pow(256, w) == U64_LIMIT
    ensures w == 16 ==> Pow(256, w) == U128_LIMIT
  {
    assert Pow(256, 1) == U8_LIMIT && Pow(256, 2) == U16_LIMIT && Pow(256, 4) == U32_LIMIT;
    PowSum(256, 4, 4);
    PowSum(256, 8, 8);
  }

  function TakeInt(b: seq<u8>, w: nat): Parsed<nat> {
    if |b| < w then None else Some((LeVal(b[..w]), b[w..]))
  }

  lemma TakeIntBound(b: seq<u8>, w: nat)
    requires TakeInt(b, w).Some?
    ensures TakeInt(b, w).value.0 < Pow(256, w)
    ensures b == LeEnc(TakeInt(b, w).value.0, w) + TakeInt(b, w).value.1
  {
    LeCanonical(b[..w]);
  }

  lemma TakeIntInverts(n: nat, w: nat, rest: seq<u8>)
    requires n < Pow(256, w)
    ensures TakeInt(LeEnc(n, w) + rest, w) == Some((n, rest))
  {
    LeRoundTrip(n, w);
    assert (LeEnc(n, w) + rest)[..w] == LeEnc(n, w);
  }

  function DecU8(b: seq<u8>): Parsed<u8> {
    if |b| < 1 then None else Some((b[0], b[1..]))
  }

  function DecU16(b: seq<u8>): Parsed<u16> {
    if |b| < 2 then None else TakeIntBound(b, 2); Pow256Values(2); Some((LeVal(b[..2]), b[2..]))
  }

  function DecU32(b: seq<u8>): Parsed<u32> {
    if |b| < 4 then None else TakeIntBound(b, 4); Pow256Values(4); Some((LeVal(b[..4]), b[4..]))
  }

  function DecU64(b: seq<u8>): Parsed<u64> {
    if |b| < 8 then None else TakeIntBound(b, 8); Pow256Values(8); Some((LeVal(b[..8]), b[8..]))
  }

  function DecU128(b: seq<u8>): Parsed<u128> {
    if |b| < 16 then None else TakeIntBound(b, 16); Pow256Values(16); Some((LeVal(b[..16]), b[16..]))
  }

  function U8(): (c: Codec<u8>)
    ensures Canonical(c)
  {
    Codec((v: u8) => [v], b => DecU8(b))
  }

  function U16(): (c: Codec<u16>)
    ensures Canonical(c)
  {
    var c := Codec((v: u16) => LeEnc(v, 2), b => DecU16(b));
    assert Canonical(c) by {
      Pow256Values(2);
      forall v: u16, rest: seq<u8> ensures c.dec(c.enc(v) + rest) == Some((v, rest)) { TakeIntInverts(v, 2, rest); }
      forall b: seq<u8> | DecU16(b).Some? ensures b == c.enc(DecU16(b).value.0) + DecU16(b).value.1 {
        TakeIntBound(b, 2);
      }
    }
    c
  }

  function U32(): (c: Codec<u32>)
    ensures Canonical(c)
  {
    var c := Codec((v: u32) => LeEnc(v, 4), b => DecU32(b));
    assert Canonical(c) by {
      Pow256Values(4);
      forall v: u32, rest: seq<u8> ensures c.dec(c.enc(v) + rest) == Some((v, rest)) { TakeIntInverts(v, 4, rest); }
      forall b: seq<u8> | DecU32(b).Some? ensures b == c.enc(DecU32(b).value.0) + DecU32(b).value.1 {
        TakeIntBound(b, 4);
      }
    }
    c
  }

  function U64(): (c: Codec<u64>)
    ensures Canonical(c)
  {
    var c := Codec((v: u64) => LeEnc(v, 8), b => DecU64(b));
    assert Canonical(c) by {
      Pow256Values(8);
      forall v: u64, rest: seq<u8> ensures c.dec(c.enc(v) + rest) == Some((v, rest)) { TakeIntInverts(v, 8, rest); }
      forall b: seq<u8> | DecU64(b).Some? ensures b == c.enc(DecU64(b).value.0) + DecU64(b).value.1 {
        TakeIntBound(b, 8);
      }
    }
    c
  }

  function U128(): (c: Codec<u128>)
    ensures Canonical(c)
  {
    var c := Codec((v: u128) => LeEnc(v, 16), b => DecU128(b));
    assert Canonical(c) by {
      Pow256Values(16);
      forall v: u128, rest: seq<u8> ensures c.dec(c.enc(v) + rest) == Some((v, rest)) { TakeIntInverts(v, 16, rest); }
      forall b: seq<u8> | DecU128(b).Some? ensures b == c.enc(DecU128(b).value.0) + DecU128(b).value.1 {
        TakeIntBound(b, 16);
      }
    }
    c
  }

  // ---- Fixed arrays ----

  function DecBytes32(b: seq<u8>): Parsed<bytes32> {
    if |b| < 32 then None else Some((b[..32], b[32..]))
  }

  function DecBytes64(b: seq<u8>): Parsed<bytes64> {
    if |b| < 64 then None else Some((b[..64], b[64..]))
  }

  function Bytes32(): (c: Codec<bytes32>)
    ensures Canonical(c)
  {
    var c := Codec((v: bytes32) => v, b => DecBytes32(b));
    assert Canonical(c) by {
      forall v: bytes32, rest: seq<u8> ensures c.dec(c.enc(v) + rest) == Some((v, rest)) {
        assert (v + rest)[..32] == v && (v + rest)[32..] == rest;
      }
    }
    c
  }

  function Bytes64(): (c: Codec<bytes64>)
    ensures Canonical(c)
  {
    var c := Codec((v: bytes64) => v, b => DecBytes64(b));
    assert Canonical(c) by {
      forall v: bytes64, rest: seq<u8> ensures c.dec(c.enc(v) + rest) == Some((v, rest)) {
        assert (v + rest)[..64] == v && (v + rest)[64..] == rest;
      }
    }
    c
  }

  // ---- Products and renamings ----

  function DecPair<A, B>(a: Codec<A>, b: Codec<B>, bytes: seq<u8>): Parsed<(A, B)> {
    var x := a.dec(bytes);
    if x.None? then None
    else
      var y := b.dec(x.value.1);
      if y.None? then None else Some(((x.value.0, y.value.0), y.value.1))
  }

  function Pair<A(!new), B(!new)>(a: Codec<A>, b: Codec<B>): (c: Codec<(A, B)>)
    requires Canonical(a) && Canonical(b)
    ensures Canonical(c)
  {
    var c := Codec((v: (A, B)) => a.enc(v.0) + b.enc(v.1), bytes => DecPair(a, b, bytes));
    assert Canonical(c) by {
      forall v: (A, B), rest: seq<u8> ensures c.dec(c.enc(v) + rest) == Some((v, rest)) {
        assert c.enc(v) + rest == a.enc(v.0) + (b.enc(v.1) + rest);
      }
      forall bytes: seq<u8> | c.dec(bytes).Some? ensures bytes == c.enc(c.dec(bytes).value.0) + c.dec(bytes).value.1 {
        var x := a.dec(bytes);
        var y := b.dec(x.value.1);
        assert bytes == a.enc(x.value.0) + (b.enc(y.value.0) + y.value.1);
      }
    }
    c
  }

  function Triple<A(!new), B(!new), C(!new)>(a: Codec<A>, b: Codec<B>, c: Codec<C>): (r: Codec<(A, (B, C))>)
    requires Canonical(a) && Canonical(b) && Canonical(c)
    ensures Canonical(r)
  {
    Pair(a, Pair(b, c))
  }

  function Quad<A(!new), B(!new), C(!new), D(!new)>(a: Codec<A>, b: Codec<B>, c: Codec<C>, d: Codec<D>)
    : (r: Codec<(A, (B, (C, D)))>)
    requires Canonical(a) && Canonical(b) && Canonical(c) && Canonical(d)
    ensures Canonical(r)
  {
    Pair(a, Triple(b, c, d))
  }

  lemma TripleBytes<A(!new), B(!new), C(!new)>(a: Codec<A>, b: Codec<B>, c: Codec<C>, v: (A, (B, C)))
    requires Canonical(a) && Canonical(b) && Canonical(c)
    ensures Triple(a, b, c).enc(v) == a.enc(v.0) + b.enc(v.1.0) + c.enc(v.1.1)
  {
    hide Canonical;
    assert a.enc(v.0) + (b.enc(v.1.0) + c.enc(v.1.1)) == a.enc(v.0) + b.enc(v.1.0) + c.enc(v.1.1);
  }

  lemma QuadBytes<A(!new), B(!new), C(!new), D(!new)>(a: Codec<A>, b: Codec<B>, c: Codec<C>, d: Codec<D>,
                                                      v: (A, (B, (C, D))))
    requires Canonical(a) && Canonical(b) && Canonical(c) && Canonical(d)
    ensures Quad(a, b, c, d).enc(v) == a.enc(v.0) + b.enc(v.1.0) + c.enc(v.1.1.0) + d.enc(v.1.1.1)
  {
    hide Canonical, Triple;
    TripleBytes(b, c, d, v.1);
    var (x, y, z, u) := (a.enc(v.0), b.enc(v.1.0), c.enc(v.1.1.0), d.enc(v.1.1.1));
    assert x + (y + z + u) == x + y + z + u;
  }

  function DecIso<A, B>(c: Codec<A>, to: A -> B, bytes: seq<u8>): Parsed<B> {
    var x := c.dec(bytes);
    if x.None? then None else Some((to(x.value.0), x.value.1))
  }

  /** The same bytes under another name. */
  function Iso<A(!new), B(!new)>(c: Codec<A>, to: A -> B, from: B -> A): (r: Codec<B>)
    requires Canonical(c)
    requires forall a: A :: from(to(a)) == a
    requires forall b: B :: to(from(b)) == b
    ensures Canonical(r)
  {
    Codec((v: B) => c.enc(from(v)), bytes => DecIso(c, to, bytes))
  }

  function DecNarrow<W, V>(wide: Codec<W>, narrow: W -> Option<V>, bytes: seq<u8>): Parsed<V> {
    var x := wide.dec(bytes);
    if x.None? || narrow(x.value.0).None? then None else Some((narrow(x.value.0).value, x.value.1))
  }

  /** The same bytes, refusing values outside the narrower type. */
  function Narrow<W(!new), V(!new)>(wide: Codec<W>, widen: V -> W, narrow: W -> Option<V>): (c: Codec<V>)
    requires Canonical(wide)
    requires forall v: V :: narrow(widen(v)) == Some(v)
    requires forall w: W :: narrow(w).Some? ==> widen(narrow(w).value) == w
    ensures Canonical(c)
  {
    Codec((v: V) => wide.enc(widen(v)), bytes => DecNarrow(wide, narrow, bytes))
  }

  // ---- Optional values and sequences ----

  function DecOption<T>(c: Codec<T>, bytes: seq<u8>): Parsed<Option<T>> {
    if bytes == [] then None
    else if bytes[0] == 0 then Some((None, bytes[1..]))
    else if bytes[0] == 1 then
      var x := c.dec(bytes[1..]);
      if x.None? then None else Some((Some(x.value.0), x.value.1))
    else None
  }

  function Optional<T(!new)>(c: Codec<T>): (o: Codec<Option<T>>)
    requires Canonical(c)
    ensures Canonical(o)
  {
    var o := Codec((v: Option<T>) => if v.None? then [0] else [1] + c.enc(v.value), bytes => DecOption(c, bytes));
    assert Canonical(o) by {
      forall v: Option<T>, rest: seq<u8> ensures o.dec(o.enc(v) + rest) == Some((v, rest)) {
        if v.Some? {
          assert (o.enc(v) + rest)[1..] == c.enc(v.value) + rest;
        } else {
          assert (o.enc(v) + rest)[1..] == rest;
        }
      }
      forall bytes: seq<u8> | o.dec(bytes).Some? ensures bytes == o.enc(o.dec(bytes).value.0) + o.dec(bytes).value.1 {
        assert bytes == [bytes[0]] + bytes[1..];
      }
    }
    o
  }

  function EncAll<T>(c: Codec<T>, s: seq<T>): seq<u8> {
    if s == [] then [] else c.enc(s[0]) + EncAll(c, s[1..])
  }

  function DecAll<T>(c: Codec<T>, n: nat, bytes: seq<u8>): (r: Parsed<seq<T>>)
    ensures r.Some? ==> |r.value.0| == n
  {
    if n == 0 then Some(([], bytes))
    else
      var x := c.dec(bytes);
      if x.None? then None
      else
        var xs := DecAll(c, n - 1, x.value.1);
        if xs.None? then None else Some(([x.value.0] + xs.value.0, xs.value.1))
  }

  lemma {:induction false} DecAllInverts<T(!new)>(c: Codec<T>, s: seq<T>, rest: seq<u8>)
    requires Canonical(c)
    ensures DecAll(c, |s|, EncAll(c, s) + rest) == Some((s, rest))
  {
    if s == [] {
      assert EncAll(c, s) + rest == rest;
    } else {
      DecAllInverts(c, s[1..], rest);
      assert EncAll(c, s) + rest == c.enc(s[0]) + (EncAll(c, s[1..]) + rest);
      assert [s[0]] + s[1..] == s;
    }
  }

  lemma {:induction false} DecAllCanonical<T(!new)>(c: Codec<T>, n: nat, bytes: seq<u8>)
    requires Canonical(c) && DecAll(c, n, bytes).Some?
    ensures bytes == EncAll(c, DecAll(c, n, bytes).value.0) + DecAll(c, n, bytes).value.1
  {
    if n > 0 {
      var x := c.dec(bytes);
      DecAllCanonical(c, n - 1, x.value.1);
      var s := DecAll(c, n, bytes).value.0;
      assert s[1..] == DecAll(c, n - 1, x.value.1).value.0;
    }
  }

  function DecVec<T>(c: Codec<T>, bytes: seq<u8>): Parsed<Vec<T>> {
    var n := DecU32(bytes);
    if n.None? then None else DecAll(c, n.value.0, n.value.1)
  }

  lemma VecInverts<T(!new)>(c: Codec<T>, v: Vec<T>, rest: seq<u8>)
    requires Canonical(c)
    ensures DecVec(c, LeEnc(|v|, 4) + EncAll(c, v) + rest) == Some((v, rest))
  {
    hide Canonical, EncAll, DecAll;
    Pow256Values(4);
    TakeIntInverts(|v|, 4, EncAll(c, v) + rest);
    assert LeEnc(|v|, 4) + EncAll(c, v) + rest == LeEnc(|v|, 4) + (EncAll(c, v) + rest);
    DecAllInverts(c, v, rest);
  }

  lemma VecAccepts<T(!new)>(c: Codec<T>, bytes: seq<u8>)
    requires Canonical(c) && DecVec(c, bytes).Some?
    ensures var (v, rest) := DecVec(c, bytes).value; bytes == LeEnc(|v|, 4) + EncAll(c, v) + rest
  {
    hide Canonical, EncAll, DecAll, LeEnc;
    TakeIntBound(bytes, 4);
    var n := DecU32(bytes).value;
    DecAllCanonical(c, n.0, n.1);
    var (v, rest) := DecVec(c, bytes).value;
    assert LeEnc(n.0, 4) + (EncAll(c, v) + rest) == LeEnc(n.0, 4) + EncAll(c, v) + rest;
  }

  function VecOf<T(!new)>(c: Codec<T>): (r: Codec<Vec<T>>)
    requires Canonical(c)
    ensures Canonical(r)
  {
    var r := Codec((v: Vec<T>) => LeEnc(|v|, 4) + EncAll(c, v), bytes => DecVec(c, bytes));
    assert Canonical(r) by {
      hide DecVec, EncAll, LeEnc;
      forall v: Vec<T>, rest: seq<u8> ensures r.dec(r.enc(v) + rest) == Some((v, rest)) {
        VecInverts(c, v, rest);
      }
      forall bytes: seq<u8> | DecVec(c, bytes).Some?
        ensures bytes == r.enc(DecVec(c, bytes).value.0) + DecVec(c, bytes).value.1
      {
        VecAccepts(c, bytes);
      }
    }
    r
  }

  // ---- Tagged unions ----

  /** One case of a union: its payload's bytes, when the value is of this case. */
  datatype Variant<!T> = Variant(body: T -> Option<seq<u8>>, parse: seq<u8> -> Parsed<T>)

  ghost predicate Good<T(!new)>(x: Variant<T>, tagOf: T -> nat, tag: nat) {
    && (forall v: T :: x.body(v).Some? <==> tagOf(v) == tag)
    && (forall v: T, rest: seq<u8> :: x.body(v).Some? ==> x.parse(x.body(v).value + rest) == Some((v, rest)))
    && (forall b: seq<u8> :: x.parse(b).Some? ==>
          x.body(x.parse(b).value.0).Some? && b == x.body(x.parse(b).value.0).value + x.parse(b).value.1)
  }

  function Case<A(!new), T(!new)>(c: Codec<A>, inject: A -> T, project: T -> Option<A>, ghost tagOf: T -> nat,
                                  ghost tag: nat)
    : (x: Variant<T>)
    requires Canonical(c)
    requires forall v: T :: project(v).Some? <==> tagOf(v) == tag
    requires forall a: A :: project(inject(a)) == Some(a)
    requires forall v: T :: project(v).Some? ==> inject(project(v).value) == v
    ensures Good(x, tagOf, tag)
  {
    Variant((v: T) => if project(v).Some? then Some(c.enc(project(v).value)) else None,
            bytes => DecIso(c, inject, bytes))
  }

  /** A case without fields. */
  function Plain<T(!new, ==)>(value: T, ghost tagOf: T -> nat, ghost tag: nat): (x: Variant<T>)
    requires forall v: T :: v == value <==> tagOf(v) == tag
    ensures Good(x, tagOf, tag)
  {
    var x: Variant<T> := Variant((v: T) => if v == value then Some([]) else None, bytes => Some((value, bytes)));
    assert Good(x, tagOf, tag) by {
      forall v: T, rest: seq<u8> | x.body(v).Some? ensures x.parse(x.body(v).value + rest) == Some((v, rest)) {
        assert x.body(v).value + rest == rest;
      }
    }
    x
  }

  function EncUnion<T>(vs: seq<Variant<T>>, tagOf: T -> nat, v: T): seq<u8> {
    var t := tagOf(v);
    if t < |vs| && t < U8_LIMIT && vs[t].body(v).Some? then [t] + vs[t].body(v).value else []
  }

  function DecUnion<T>(vs: seq<Variant<T>>, bytes: seq<u8>): Parsed<T> {
    if bytes == [] || bytes[0] >= |vs| then None else vs[bytes[0]].parse(bytes[1..])
  }

  /** The cases of a union, in tag order and with none missing. */
  ghost predicate Tagged<T(!new)>(vs: seq<Variant<T>>, tagOf: T -> nat) {
    && |vs| <= U8_LIMIT
    && (forall v: T :: tagOf(v) < |vs|)
    && (forall t :: 0 <= t < |vs| ==> Good(vs[t], tagOf, t))
  }

  /** An enum: its declaration-order tag in one byte, then its payload. */
  function Union<T>(vs: seq<Variant<T>>, tagOf: T -> nat): Codec<T> {
    Codec((v: T) => EncUnion(vs, tagOf, v), bytes => DecUnion(vs, bytes))
  }

  lemma UnionCanonical<T(!new)>(vs: seq<Variant<T>>, tagOf: T -> nat)
    requires Tagged(vs, tagOf)
    ensures Canonical(Union(vs, tagOf))
  {
    var u := Union(vs, tagOf);
    forall v: T, rest: seq<u8> ensures u.dec(u.enc(v) + rest) == Some((v, rest)) {
      var t := tagOf(v);
      assert Good(vs[t], tagOf, t);
      assert (u.enc(v) + rest)[1..] == vs[t].body(v).value + rest;
    }
    forall bytes: seq<u8> | u.dec(bytes).Some? ensures bytes == u.enc(u.dec(bytes).value.0) + u.dec(bytes).value.1 {
      var t := bytes[0];
      assert Good(vs[t], tagOf, t);
      var v := u.dec(bytes).value.0;
      assert tagOf(v) == t;
      assert bytes == [t] + bytes[1..];
    }
  }
}
