/**
 The protobuf wire format as the generated code of prompb reads and writes it:
 base 128 varints, zigzag, little-endian fixed64 and length-delimited records. A
 float64 is its bit pattern. Bit operations are written as arithmetic.
 */
module Wire {
  import opened Prelude

  type Byte = x: int | 0 <= x < 256

  type Bytes = seq<Byte>

  const TWO_63: int := 0x8000_0000_0000_0000
  const TWO_64: int := 0x1_0000_0000_0000_0000
  const TWO_32: int := 0x1_0000_0000
  const TWO_31: int := 0x8000_0000

  datatype Error =
    | IntOverflow | UnexpectedEOF | InvalidLength | EndGroup | IllegalTag | WrongWireType | UnexpectedEndOfGroup
    | IllegalWireType

  /** A value and how many bytes it took, or an error. */
  datatype Parsed<T> = Got(value: T, n: nat) | Bad(error: Error)

  lemma Assoc<T>(a: seq<T>, b: seq<T>, c: seq<T>)
    ensures a + b + c == a + (b + c)
  {
  }

  lemma NoneMore<T>(a: seq<T>)
    ensures a + [] == a == [] + a
  {
  }

  // ---------------------------------------------------------------- varints

  function Varint(v: nat): (s: Bytes)
    ensures |s| > 0
  {
    if v < 128 then [v] else [v % 128 + 128] + Varint(v / 128)
  }

  /** What the bytes of a varint add up to, with at most `k` bytes left. */
  function ReadRaw(s: Bytes, k: nat): (r: Parsed<nat>)
    ensures r.Got? ==> 0 < r.n <= |s|
  {
    if k == 0 then Bad(IntOverflow)
    else if s == [] then Bad(UnexpectedEOF)
    else if s[0] < 128 then Got(s[0], 1)
    else
      var rest := ReadRaw(s[1..], k - 1);
      if rest.Bad? then rest else Got(s[0] - 128 + 128 * rest.value, 1 + rest.n)
  }

  /** A varint of up to ten bytes; bits beyond 64 are lost. */
  function ReadVarint(s: Bytes): (r: Parsed<nat>)
    ensures r.Got? ==> r.value < TWO_64 && 0 < r.n <= |s|
  {
    var r := ReadRaw(s, 10);
    if r.Bad? then r else Got(r.value % TWO_64, r.n)
  }

  function Pow128(n: nat): nat {
    if n == 0 then 1 else 128 * Pow128(n - 1)
  }

  lemma {:induction false} RawRoundTrip(v: nat, k: nat, post: Bytes)
    requires 0 < k && v < Pow128(k)
    ensures |Varint(v)| <= k && ReadRaw(Varint(v) + post, k) == Got(v, |Varint(v)|)
    decreases k
  {
    if v >= 128 {
      RawRoundTrip(v / 128, k - 1, post);
      assert (Varint(v) + post)[1..] == Varint(v / 128) + post;
    }
  }

  lemma TenBytes()
    ensures TWO_64 <= Pow128(10)
  {
    assert Pow128(2) == 16384;
    assert Pow128(4) == 0x1000_0000;
    assert Pow128(6) == 0x400_0000_0000;
    assert Pow128(8) == 0x100_0000_0000_0000;
  }

  lemma {:induction false} VarintRoundTrip(v: nat, post: Bytes)
    requires v < TWO_64
    ensures ReadVarint(Varint(v) + post) == Got(v, |Varint(v)|)
  {
    TenBytes();
    RawRoundTrip(v, 10, post);
  }

  // ---------------------------------------------------------------- sizes of varints

  function BitLen(x: nat): nat {
    if x == 0 then 0 else 1 + BitLen(x / 2)
  }

  /** sovTypes and sovRemote. */
  function Sov(x: nat): nat {
    (BitLen(if x % 2 == 0 then x + 1 else x) + 6) / 7
  }

  lemma SevenBits(x: nat)
    requires 128 <= x
    ensures BitLen(x) == 7 + BitLen(x / 128)
  {
    assert BitLen(x) == 1 + BitLen(x / 2);
    assert BitLen(x / 2) == 1 + BitLen(x / 4);
    assert BitLen(x / 4) == 1 + BitLen(x / 8);
    assert BitLen(x / 8) == 1 + BitLen(x / 16);
    assert BitLen(x / 16) == 1 + BitLen(x / 32);
    assert BitLen(x / 32) == 1 + BitLen(x / 64);
    assert BitLen(x / 64) == 1 + BitLen(x / 128);
  }

  lemma FewBits(x: nat)
    requires 0 < x < 128
    ensures 1 <= BitLen(x) <= 7
  {
    assert BitLen(x / 64) <= 1;
    assert BitLen(x / 16) <= 3;
    assert BitLen(x / 4) <= 5;
  }

  lemma {:induction false} BitsOfVarint(x: nat)
    requires 0 < x
    ensures (BitLen(x) + 6) / 7 == |Varint(x)|
  {
    if x < 128 {
      FewBits(x);
    } else {
      SevenBits(x);
      BitsOfVarint(x / 128);
    }
  }

  /** The precomputed size is the length of the varint. */
  lemma SovIsLength(x: nat)
    ensures Sov(x) == |Varint(x)|
  {
    var y := if x % 2 == 0 then x + 1 else x;
    BitsOfVarint(y);
    SameLength(x, y);
  }

  lemma {:induction false} SameLength(x: nat, y: nat)
    requires x / 2 == y / 2
    ensures |Varint(x)| == |Varint(y)|
  {
    if x >= 128 {
      assert x / 128 == y / 128;
    }
  }

  // ---------------------------------------------------------------- fixed64, zigzag, two's complement

  /** The low `n` bytes, little end first. */
  function LittleEndian(v: nat, n: nat): (s: Bytes)
    ensures |s| == n
  {
    if n == 0 then [] else [v % 256] + LittleEndian(v / 256, n - 1)
  }

  function FromLittleEndian(s: Bytes): nat {
    if s == [] then 0 else s[0] + 256 * FromLittleEndian(s[1..])
  }

  function Pow256(n: nat): nat {
    if n == 0 then 1 else 256 * Pow256(n - 1)
  }

  lemma {:induction false} LittleEndianRoundTrip(v: nat, n: nat)
    requires v < Pow256(n)
    ensures FromLittleEndian(LittleEndian(v, n)) == v
  {
    if n > 0 {
      LittleEndianRoundTrip(v / 256, n - 1);
      assert LittleEndian(v, n)[1..] == LittleEndian(v / 256, n - 1);
    }
  }

  lemma EightBytes()
    ensures Pow256(8) == TWO_64
  {
    assert Pow256(2) == 0x1_0000;
    assert Pow256(4) == TWO_32;
    assert Pow256(6) == 0x1_0000_0000_0000;
  }

  function ZigZag(n: int): nat {
    if n >= 0 then 2 * n else -2 * n - 1
  }

  function UnZigZag(v: nat): int {
    if v % 2 == 0 then v / 2 else -(v / 2) - 1
  }

  lemma ZigZagRoundTrip(n: int)
    ensures UnZigZag(ZigZag(n)) == n
    ensures -TWO_63 <= n < TWO_63 ==> ZigZag(n) < TWO_64
    ensures -TWO_31 <= n < TWO_31 ==> ZigZag(n) < TWO_32
  {
  }

  /** A signed number as uint64. */
  function Unsigned(n: int): nat {
    n % TWO_64
  }

  function Signed64(v: nat): int {
    if v % TWO_64 < TWO_63 then v % TWO_64 else v % TWO_64 - TWO_64
  }

  function Signed32(v: nat): int {
    if v % TWO_32 < TWO_31 then v % TWO_32 else v % TWO_32 - TWO_32
  }

  lemma SignedRoundTrip(n: int)
    requires -TWO_63 <= n < TWO_63
    ensures Unsigned(n) < TWO_64 && Signed64(Unsigned(n)) == n
    ensures -TWO_31 <= n < TWO_31 ==> Signed32(Unsigned(n)) == n
  {
    assert Unsigned(n) == if n >= 0 then n else n + TWO_64;
    if -TWO_31 <= n < 0 { assert (n + TWO_64) % TWO_32 == n + TWO_32; }
  }

  // ---------------------------------------------------------------- fields

  datatype Field =
    | VarintField(num: nat, v: nat)
    | FixedField(num: nat, v: nat)
    | BytesField(num: nat, data: Bytes)
    | VarintsField(num: nat, vs: seq<nat>)  // packed
    | FixedsField(num: nat, vs: seq<nat>)  // packed
    | UnknownField(data: Bytes)

  function Tag(num: nat, wireType: nat): Bytes {
    Varint(8 * num + wireType)
  }

  // What is written comes before what has been written already, `post`.

  function VarintsBefore(vs: seq<nat>, post: Bytes): (s: Bytes)
    ensures |post| <= |s|
  {
    if vs == [] then post else Varint(vs[0]) + VarintsBefore(vs[1..], post)
  }

  function Varints(vs: seq<nat>): Bytes {
    VarintsBefore(vs, [])
  }

  function FixedsBefore(vs: seq<nat>, post: Bytes): (s: Bytes)
    ensures |s| == 8 * |vs| + |post|
  {
    if vs == [] then post else LittleEndian(vs[0], 8) + FixedsBefore(vs[1..], post)
  }

  function Fixeds(vs: seq<nat>): Bytes {
    FixedsBefore(vs, [])
  }

  lemma {:induction false} VarintsAppend(vs: seq<nat>, x: Bytes, post: Bytes)
    ensures VarintsBefore(vs, x) + post == VarintsBefore(vs, x + post)
  {
    if vs != [] {
      VarintsAppend(vs[1..], x, post);
      assert Varint(vs[0]) + VarintsBefore(vs[1..], x) + post == Varint(vs[0]) + (VarintsBefore(vs[1..], x) + post);
    }
  }

  lemma {:induction false} FixedsAppend(vs: seq<nat>, x: Bytes, post: Bytes)
    ensures FixedsBefore(vs, x) + post == FixedsBefore(vs, x + post)
  {
    if vs != [] {
      FixedsAppend(vs[1..], x, post);
      assert LittleEndian(vs[0], 8) + FixedsBefore(vs[1..], x) + post ==
             LittleEndian(vs[0], 8) + (FixedsBefore(vs[1..], x) + post);
    }
  }

  function Delimited(data: Bytes): Bytes {
    Varint(|data|) + data
  }

  function WireType(f: Field): nat {
    match f
    case VarintField(_, _) => 0
    case FixedField(_, _) => 1
    case _ => 2
  }

  /** What follows the tag. */
  function Body(f: Field): Bytes {
    match f
    case VarintField(_, v) => Varint(v)
    case FixedField(_, v) => LittleEndian(v, 8)
    case BytesField(_, data) => Delimited(data)
    case VarintsField(_, vs) => Delimited(Varints(vs))
    case FixedsField(_, vs) => Delimited(Fixeds(vs))
    case UnknownField(data) => data
  }

  function EncodeField(f: Field): Bytes {
    if f.UnknownField? then f.data else Tag(f.num, WireType(f)) + Body(f)
  }

  function EncodeFields(fs: seq<Field>, post: Bytes): (s: Bytes)
    ensures |post| <= |s|
  {
    if fs == [] then post else EncodeField(fs[0]) + EncodeFields(fs[1..], post)
  }

  predicate Uint64s(vs: seq<nat>) {
    forall i | 0 <= i < |vs| :: vs[i] < TWO_64
  }

  /** Numbers in range. */
  predicate GoodValues(f: Field) {
    match f
    case VarintField(num, v) => 0 < num < TWO_31 && v < TWO_64
    case FixedField(num, v) => 0 < num < TWO_31 && v < TWO_64
    case BytesField(num, data) => 0 < num < TWO_31
    case VarintsField(num, vs) => 0 < num < TWO_31 && Uint64s(vs)
    case FixedsField(num, vs) => 0 < num < TWO_31 && Uint64s(vs)
    case UnknownField(_) => false
  }

  predicate GoodField(f: Field) {
    && GoodValues(f)
    && (f.BytesField? ==> |f.data| < TWO_63)
    && (f.VarintsField? ==> |Varints(f.vs)| < TWO_63)
    && (f.FixedsField? ==> |Fixeds(f.vs)| < TWO_63)
  }

  // ---------------------------------------------------------------- reading a field

  datatype Kind = KVarint | KFixed | KBytes | KVarints | KFixeds | KNone

  function KindOf(f: Field): Kind {
    match f
    case VarintField(_, _) => KVarint
    case FixedField(_, _) => KFixed
    case BytesField(_, _) => KBytes
    case VarintsField(_, _) => KVarints
    case FixedsField(_, _) => KFixeds
    case UnknownField(_) => KNone
  }

  /** What a message type expects in its fields. */
  type Kinds = nat -> Kind

  /** A field after a tag of `n` bytes. */
  function AsVarint(n: nat, num: nat, r: Parsed<nat>): Parsed<Field> {
    if r.Bad? then Bad(r.error) else Got(VarintField(num, r.value), n + r.n)
  }

  function AsFixed(n: nat, num: nat, r: Parsed<nat>): Parsed<Field> {
    if r.Bad? then Bad(r.error) else Got(FixedField(num, r.value), n + r.n)
  }

  function AsBytes(n: nat, num: nat, r: Parsed<Bytes>): Parsed<Field> {
    if r.Bad? then Bad(r.error) else Got(BytesField(num, r.value), n + r.n)
  }

  function AsVarints(n: nat, num: nat, r: Parsed<seq<nat>>): Parsed<Field> {
    if r.Bad? then Bad(r.error) else Got(VarintsField(num, r.value), n + r.n)
  }

  function AsFixeds(n: nat, num: nat, r: Parsed<seq<nat>>): Parsed<Field> {
    if r.Bad? then Bad(r.error) else Got(FixedsField(num, r.value), n + r.n)
  }

  function Singleton(r: Parsed<nat>): Parsed<seq<nat>> {
    if r.Bad? then Bad(r.error) else Got([r.value], r.n)
  }

  function ReadFixed(s: Bytes): (r: Parsed<nat>)
    ensures r.Got? ==> r.n == 8 <= |s|
  {
    if |s| < 8 then Bad(UnexpectedEOF) else Got(FromLittleEndian(s[..8]), 8)
  }

  /** The length of a delimited record, which must be there in full. */
  function ReadLength(s: Bytes): (r: Parsed<nat>)
    ensures r.Got? ==> 0 < r.n && r.n + r.value <= |s|
  {
    match ReadVarint(s)
    case Bad(e) => Bad(e)
    case Got(v, n) => if v >= TWO_63 then Bad(InvalidLength) else if n + v > |s| then Bad(UnexpectedEOF) else Got(v, n)
  }

  function ReadDelimited(s: Bytes): (r: Parsed<Bytes>)
    ensures r.Got? ==> 0 < r.n <= |s|
  {
    match ReadLength(s)
    case Bad(e) => Bad(e)
    case Got(v, n) => Got(s[n..n + v], n + v)
  }

  /** Packed varints for at least `length` bytes, after those already read: the last may run past the record, but not
      past the message. */
  function ReadVarints(s: Bytes, length: int, vs: seq<nat>): (r: Parsed<seq<nat>>)
    ensures r.Got? ==> r.n <= |s|
    decreases |s|
  {
    if length <= 0 then Got(vs, 0)
    else
      match ReadVarint(s)
      case Bad(e) => Bad(e)
      case Got(v, n) => Further(n, ReadVarints(s[n..], length - n, vs + [v]))
  }

  function ReadFixeds(s: Bytes, length: int, vs: seq<nat>): (r: Parsed<seq<nat>>)
    ensures r.Got? ==> r.n <= |s|
    decreases |s|
  {
    if length <= 0 then Got(vs, 0)
    else
      match ReadFixed(s)
      case Bad(e) => Bad(e)
      case Got(v, n) => Further(n, ReadFixeds(s[n..], length - n, vs + [v]))
  }

  /** The same, `n` bytes on. */
  function Further<T>(n: nat, r: Parsed<T>): Parsed<T> {
    if r.Bad? then r else Got(r.value, n + r.n)
  }

  function ReadPacked(s: Bytes, fixed: bool): (r: Parsed<seq<nat>>)
    ensures r.Got? ==> 0 < r.n <= |s|
  {
    match ReadLength(s)
    case Bad(e) => Bad(e)
    case Got(v, n) => Further(n, if fixed then ReadFixeds(s[n..], v, []) else ReadVarints(s[n..], v, []))
  }

  // skipping what is not known

  /** One element: how far it reaches, which may be past the end, and the depth of groups after it. */
  function SkipElement(s: Bytes, depth: nat): (r: Parsed<nat>)
    ensures r.Got? ==> 0 < r.n
  {
    match ReadVarint(s)
    case Bad(e) => Bad(e)
    case Got(tag, n) =>
      match tag % 8
      case 0 =>
        (match ReadRaw(s[n..], 10)
         case Bad(e) => Bad(e)
         case Got(_, m) => Got(depth, n + m))
      case 1 => Got(depth, n + 8)
      case 2 =>
        (match ReadVarint(s[n..])
         case Bad(e) => Bad(e)
         case Got(length, m) => if length >= TWO_63 then Bad(InvalidLength) else Got(depth, n + m + length))
      case 3 => Got(depth + 1, n)
      case 4 => if depth == 0 then Bad(UnexpectedEndOfGroup) else Got(depth - 1, n)
      case 5 => Got(depth, n + 4)
      case _ => Bad(IllegalWireType)
  }

  /** skipTypes: elements up to the end of the outermost group. */
  function Skip(s: Bytes, depth: nat): (r: Parsed<nat>)
    ensures r.Got? ==> 0 < r.n
    decreases |s|
  {
    if s == [] then Bad(UnexpectedEOF)
    else
      match SkipElement(s, depth)
      case Bad(e) => Bad(e)
      case Got(depth', n) =>
        if depth' == 0 then Got(0, n) else if n >= |s| then Bad(UnexpectedEOF) else Further(n, Skip(s[n..], depth'))
  }

  datatype TagInfo = TagInfo(num: nat, wireType: nat)

  /** The tag of a field. */
  function ReadTag(s: Bytes): (r: Parsed<TagInfo>)
    ensures r.Got? ==> 0 < r.n <= |s|
  {
    match ReadVarint(s)
    case Bad(e) => Bad(e)
    case Got(tag, n) =>
      var num, wireType := tag / 8 % TWO_32, tag % 8;
      if wireType == 4 then Bad(EndGroup)
      else if num == 0 || num >= TWO_31 then Bad(IllegalTag)
      else Got(TagInfo(num, wireType), n)
  }

  /** The next field of a message. */
  function ReadField(s: Bytes, kinds: Kinds): (r: Parsed<Field>)
    ensures r.Got? ==> 0 < r.n <= |s|
  {
    match ReadTag(s)
    case Bad(e) => Bad(e)
    case Got(tag, n) => ReadBody(s, n, tag.num, tag.wireType, kinds(tag.num))
  }

  function ReadBody(s: Bytes, n: nat, num: nat, wireType: nat, kind: Kind): (r: Parsed<Field>)
    requires 0 < n <= |s|
    ensures r.Got? ==> 0 < r.n <= |s|
  {
    var rest := s[n..];
    match kind
    case KVarint => if wireType != 0 then Bad(WrongWireType) else AsVarint(n, num, ReadVarint(rest))
    case KFixed => if wireType != 1 then Bad(WrongWireType) else AsFixed(n, num, ReadFixed(rest))
    case KBytes => if wireType != 2 then Bad(WrongWireType) else AsBytes(n, num, ReadDelimited(rest))
    case KVarints =>
      if wireType == 0 then AsVarints(n, num, Singleton(ReadVarint(rest)))
      else if wireType == 2 then AsVarints(n, num, ReadPacked(rest, false))
      else Bad(WrongWireType)
    case KFixeds =>
      if wireType == 1 then AsFixeds(n, num, Singleton(ReadFixed(rest)))
      else if wireType == 2 then AsFixeds(n, num, ReadPacked(rest, true))
      else Bad(WrongWireType)
    case KNone =>
      match Skip(s, 0)
      case Bad(e) => Bad(e)
      case Got(_, m) => if m > |s| then Bad(UnexpectedEOF) else Got(UnknownField(s[..m]), m)
  }

  // ---------------------------------------------------------------- reading what was written

  lemma {:induction false} FixedRoundTrip(v: nat, post: Bytes)
    requires v < TWO_64
    ensures ReadFixed(LittleEndian(v, 8) + post) == Got(v, 8)
  {
    EightBytes();
    LittleEndianRoundTrip(v, 8);
    assert (LittleEndian(v, 8) + post)[..8] == LittleEndian(v, 8);
  }

  lemma {:induction false} LengthRoundTrip(data: Bytes, post: Bytes)
    requires |data| < TWO_63
    ensures ReadLength(Delimited(data) + post) == Got(|data|, |Varint(|data|)|)
  {
    VarintRoundTrip(|data|, data + post);
    assert Delimited(data) + post == Varint(|data|) + (data + post);
  }

  lemma {:induction false} DelimitedRoundTrip(data: Bytes, post: Bytes)
    requires |data| < TWO_63
    ensures ReadDelimited(Delimited(data) + post) == Got(data, |Delimited(data)|)
  {
    LengthRoundTrip(data, post);
  }

  lemma {:induction false} VarintsFirst(v: nat, rest: Bytes, length: nat, total: nat, before: seq<nat>)
    requires v < TWO_64 && total == |Varint(v)| + length
    ensures ReadVarints(Varint(v) + rest, total, before) ==
            Further(|Varint(v)|, ReadVarints(rest, length, before + [v]))
  {
    VarintRoundTrip(v, rest);
    assert (Varint(v) + rest)[|Varint(v)|..] == rest;
  }

  lemma Moved(before: seq<nat>, vs: seq<nat>)
    requires vs != []
    ensures before + [vs[0]] + vs[1..] == before + vs
  {
  }

  lemma {:induction false} VarintsRoundTrip(vs: seq<nat>, post: Bytes, before: seq<nat>, n: nat)
    requires Uint64s(vs) && n + |post| == |VarintsBefore(vs, post)|
    ensures ReadVarints(VarintsBefore(vs, post), n, before) == Got(before + vs, n)
    decreases |vs|
  {
    if vs == [] {
      NoneMore(before);
    } else {
      var m := n - |Varint(vs[0])|;
      VarintsRoundTrip(vs[1..], post, before + [vs[0]], m);
      VarintsFirst(vs[0], VarintsBefore(vs[1..], post), m, n, before);
      Moved(before, vs);
    }
  }

  lemma {:induction false} FixedsFirst(v: nat, rest: Bytes, length: nat, before: seq<nat>)
    requires v < TWO_64
    ensures ReadFixeds(LittleEndian(v, 8) + rest, 8 + length, before) ==
            Further(8, ReadFixeds(rest, length, before + [v]))
  {
    FixedRoundTrip(v, rest);
    assert (LittleEndian(v, 8) + rest)[8..] == rest;
  }

  lemma {:induction false} FixedsRoundTrip(vs: seq<nat>, post: Bytes, before: seq<nat>, n: nat)
    requires Uint64s(vs) && n == 8 * |vs|
    ensures ReadFixeds(FixedsBefore(vs, post), n, before) == Got(before + vs, n)
    decreases |vs|
  {
    if vs == [] {
      NoneMore(before);
    } else {
      FixedsRoundTrip(vs[1..], post, before + [vs[0]], n - 8);
      FixedsFirst(vs[0], FixedsBefore(vs[1..], post), n - 8, before);
      Moved(before, vs);
    }
  }

  lemma {:induction false} PackedVarintsRoundTrip(vs: seq<nat>, post: Bytes)
    requires Uint64s(vs) && |Varints(vs)| < TWO_63
    ensures ReadPacked(Delimited(Varints(vs)) + post, false) == Got(vs, |Delimited(Varints(vs))|)
  {
    LengthRoundTrip(Varints(vs), post);
    AfterLength(Varints(vs), post);
    VarintsAppend(vs, [], post);
    assert [] + post == post;
    VarintsRoundTrip(vs, post, [], |Varints(vs)|);
    assert [] + vs == vs;
  }

  lemma {:induction false} PackedFixedsRoundTrip(vs: seq<nat>, post: Bytes)
    requires Uint64s(vs) && |Fixeds(vs)| < TWO_63
    ensures ReadPacked(Delimited(Fixeds(vs)) + post, true) == Got(vs, |Delimited(Fixeds(vs))|)
  {
    LengthRoundTrip(Fixeds(vs), post);
    AfterLength(Fixeds(vs), post);
    FixedsAppend(vs, [], post);
    assert [] + post == post;
    FixedsRoundTrip(vs, post, [], |Fixeds(vs)|);
    assert [] + vs == vs;
  }

  lemma AfterLength(data: Bytes, post: Bytes)
    ensures var n := |Varint(|data|)|;
            |Delimited(data)| == n + |data| && (Delimited(data) + post)[n..] == data + post
  {
  }

  lemma {:induction false} TagRoundTrip(f: Field, post: Bytes)
    requires GoodField(f)
    ensures var tag := Tag(f.num, WireType(f));
            var s := EncodeField(f) + post;
            && ReadVarint(s) == Got(8 * f.num + WireType(f), |tag|)
            && s[|tag|..] == Body(f) + post
  {
    var tag := Tag(f.num, WireType(f));
    VarintRoundTrip(8 * f.num + WireType(f), Body(f) + post);
    assert EncodeField(f) + post == tag + (Body(f) + post);
  }

  lemma {:induction false} BodyRoundTrip(f: Field, s: Bytes, n: nat, post: Bytes)
    requires GoodField(f) && 0 < n <= |s| && s[n..] == Body(f) + post
    ensures ReadBody(s, n, f.num, WireType(f), KindOf(f)) == Got(f, n + |Body(f)|)
  {
    match f
    case VarintField(_, v) => VarintRoundTrip(v, post);
    case FixedField(_, v) => FixedRoundTrip(v, post);
    case BytesField(_, data) => DelimitedRoundTrip(data, post);
    case VarintsField(_, vs) => PackedVarintsRoundTrip(vs, post);
    case FixedsField(_, vs) => PackedFixedsRoundTrip(vs, post);
  }

  lemma TagParts(num: nat, wireType: nat)
    requires 0 < num < TWO_31 && wireType < 8
    ensures (8 * num + wireType) / 8 % TWO_32 == num && (8 * num + wireType) % 8 == wireType
  {
  }

  lemma {:induction false} ReadTagOf(s: Bytes, num: nat, wireType: nat, n: nat)
    requires 0 < num < TWO_31 && wireType < 4 && ReadVarint(s) == Got(8 * num + wireType, n)
    ensures ReadTag(s) == Got(TagInfo(num, wireType), n)
  {
    TagParts(num, wireType);
  }

  /** A field that is expected is read back as it was written. */
  lemma {:induction false} FieldRoundTrip(f: Field, kinds: Kinds, post: Bytes)
    requires GoodField(f) && kinds(f.num) == KindOf(f)
    ensures ReadField(EncodeField(f) + post, kinds) == Got(f, |EncodeField(f)|)
  {
    var s, n := EncodeField(f) + post, |Tag(f.num, WireType(f))|;
    TagRoundTrip(f, post);
    ReadTagOf(s, f.num, WireType(f), n);
    BodyRoundTrip(f, s, n, post);
  }

  lemma {:induction false} SkipField(f: Field, post: Bytes)
    requires GoodField(f)
    ensures Skip(EncodeField(f) + post, 0) == Got(0, |EncodeField(f)|)
  {
    var tag, rest := Tag(f.num, WireType(f)), Body(f) + post;
    TagRoundTrip(f, post);
    TagParts(f.num, WireType(f));
    if f.VarintField? {
      TenBytes();
      RawRoundTrip(f.v, 10, post);
    } else if !f.FixedField? {
      var data := if f.BytesField? then f.data else if f.VarintsField? then Varints(f.vs) else Fixeds(f.vs);
      SkipDelimited(data, post);
    }
    SkipBody(EncodeField(f) + post, 8 * f.num + WireType(f), |tag|, rest);
  }

  lemma {:induction false} SkipDelimited(data: Bytes, post: Bytes)
    requires |data| < TWO_63
    ensures ReadVarint(Delimited(data) + post) == Got(|data|, |Varint(|data|)|)
    ensures |Delimited(data)| == |Varint(|data|)| + |data|
  {
    VarintRoundTrip(|data|, data + post);
    assert Delimited(data) + post == Varint(|data|) + (data + post);
  }

  /** Skipping one element outside any group. */
  lemma {:induction false} SkipBody(s: Bytes, tag: nat, n: nat, rest: Bytes)
    requires s != [] && ReadVarint(s) == Got(tag, n) && rest == s[n..] && tag % 8 <= 2
    ensures tag % 8 == 0 && ReadRaw(rest, 10).Got? ==> Skip(s, 0) == Got(0, n + ReadRaw(rest, 10).n)
    ensures tag % 8 == 1 ==> Skip(s, 0) == Got(0, n + 8)
    ensures tag % 8 == 2 && ReadVarint(rest).Got? && ReadVarint(rest).value < TWO_63 ==>
              Skip(s, 0) == Got(0, n + ReadVarint(rest).n + ReadVarint(rest).value)
  {
  }

  /** A field that is not expected is kept as it stands. */
  lemma {:induction false} UnknownRoundTrip(f: Field, kinds: Kinds, post: Bytes)
    requires GoodField(f) && kinds(f.num) == KNone
    ensures ReadField(EncodeField(f) + post, kinds) == Got(UnknownField(EncodeField(f)), |EncodeField(f)|)
  {
    var s, n := EncodeField(f) + post, |Tag(f.num, WireType(f))|;
    TagRoundTrip(f, post);
    ReadTagOf(s, f.num, WireType(f), n);
    SkipField(f, post);
    assert s[..|EncodeField(f)|] == EncodeField(f);
  }

  // ---------------------------------------------------------------- sequences of fields

  lemma {:induction false} FieldFits(fs: seq<Field>, post: Bytes, i: nat)
    requires i < |fs|
    ensures |EncodeField(fs[i])| <= |EncodeFields(fs, post)|
  {
    if i > 0 { FieldFits(fs[1..], post, i - 1); }
  }

  /** In a message of a size that an int can hold, no field is too long. */
  lemma {:induction false} AllGood(fs: seq<Field>, post: Bytes)
    requires (forall i | 0 <= i < |fs| :: GoodValues(fs[i])) && |EncodeFields(fs, post)| < TWO_63
    ensures forall i | 0 <= i < |fs| :: GoodField(fs[i])
  {
    forall i | 0 <= i < |fs| ensures GoodField(fs[i]) {
      FieldFits(fs, post, i);
    }
  }

  // ---------------------------------------------------------------- messages

  /** A message: its fields, and the bytes of those it does not know. */
  datatype Msg<B> = Msg(body: B, unrecognized: Bytes)

  /** What a known field does to a message. */
  type Apply<!B> = (B, Field) -> Result<B, Error>

  function ApplyField<B>(m: Msg<B>, f: Field, apply: Apply<B>): Result<Msg<B>, Error> {
    if f.UnknownField? then Ok(m.(unrecognized := m.unrecognized + f.data))
    else
      match apply(m.body, f)
      case Err(e) => Err(e)
      case Ok(body) => Ok(m.(body := body))
  }

  /** Unmarshal: one field after the other. */
  function Decode<B>(s: Bytes, kinds: Kinds, apply: Apply<B>, m: Msg<B>): Result<Msg<B>, Error>
    decreases |s|
  {
    if s == [] then Ok(m)
    else
      match ReadField(s, kinds)
      case Bad(e) => Err(e)
      case Got(f, n) =>
        match ApplyField(m, f, apply)
        case Err(e) => Err(e)
        case Ok(m') => Decode(s[n..], kinds, apply, m')
  }

  function ApplyAll<B>(fs: seq<Field>, apply: Apply<B>, b: B): Result<B, Error> {
    if fs == [] then Ok(b)
    else
      match apply(b, fs[0])
      case Err(e) => Err(e)
      case Ok(b') => ApplyAll(fs[1..], apply, b')
  }

  ghost predicate Expected(fs: seq<Field>, kinds: Kinds) {
    forall i | 0 <= i < |fs| :: GoodField(fs[i]) && kinds(fs[i].num) == KindOf(fs[i])
  }

  lemma {:induction false} DecodePrefix<B>(first: Bytes, rest: Bytes, kinds: Kinds, apply: Apply<B>, m: Msg<B>,
                                           f: Field, m': Msg<B>)
    requires first != [] && ReadField(first + rest, kinds) == Got(f, |first|) && ApplyField(m, f, apply) == Ok(m')
    ensures Decode(first + rest, kinds, apply, m) == Decode(rest, kinds, apply, m')
  {
    assert (first + rest)[|first|..] == rest;
  }

  /** Decoding the encoding of expected fields applies them in order. */
  lemma {:induction false} DecodeEncoded<B>(fs: seq<Field>, post: Bytes, kinds: Kinds, apply: Apply<B>, m: Msg<B>)
    requires Expected(fs, kinds) && ApplyAll(fs, apply, m.body).Ok?
    ensures Decode(EncodeFields(fs, post), kinds, apply, m) ==
            Decode(post, kinds, apply, Msg(ApplyAll(fs, apply, m.body).value, m.unrecognized))
  {
    if fs != [] {
      var first, rest := EncodeField(fs[0]), EncodeFields(fs[1..], post);
      FieldRoundTrip(fs[0], kinds, rest);
      var m' := Msg(apply(m.body, fs[0]).value, m.unrecognized);
      DecodePrefix(first, rest, kinds, apply, m, fs[0], m');
      DecodeEncoded(fs[1..], post, kinds, apply, m');
    }
  }

  /** Bytes that are whole fields, groups or other elements, none of them expected. */
  ghost predicate WholeUnknown(data: Bytes, kinds: Kinds)
    decreases |data|
  {
    data == [] ||
    (var r := ReadField(data, kinds);
     r.Got? && r.value.UnknownField? && WholeUnknown(data[r.n..], kinds))
  }

  lemma {:induction false} UnknownIsPrefix(s: Bytes, kinds: Kinds)
    requires ReadField(s, kinds).Got? && ReadField(s, kinds).value.UnknownField?
    ensures var n := ReadField(s, kinds).n;
            && ReadField(s, kinds).value == UnknownField(s[..n]) && Skip(s, 0).Got? && Skip(s, 0).n == n
            && ReadTag(s).Got? && kinds(ReadTag(s).value.num) == KNone
  {
  }

  /** Decoding whole unknown fields keeps them byte for byte. */
  lemma {:induction false} DecodeUnknown<B>(data: Bytes, kinds: Kinds, apply: Apply<B>, m: Msg<B>)
    requires WholeUnknown(data, kinds)
    ensures Decode(data, kinds, apply, m) == Ok(Msg(m.body, m.unrecognized + data))
    decreases |data|
  {
    if data == [] {
      NoneMore(m.unrecognized);
    } else {
      UnknownIsPrefix(data, kinds);
      var n := ReadField(data, kinds).n;
      var first, rest := data[..n], data[n..];
      assert first + rest == data;
      var m' := Msg(m.body, m.unrecognized + first);
      DecodePrefix(first, rest, kinds, apply, m, UnknownField(first), m');
      DecodeUnknown(rest, kinds, apply, m');
      Assoc(m.unrecognized, first, rest);
    }
  }

  /** A message written as its fields followed by whole unknown ones is read back with the fields applied in order. */
  lemma {:induction false} MessageRoundTrip<B>(fs: seq<Field>, unknown: Bytes, kinds: Kinds, apply: Apply<B>, b: B)
    requires forall i | 0 <= i < |fs| :: GoodValues(fs[i]) && kinds(fs[i].num) == KindOf(fs[i])
    requires |EncodeFields(fs, unknown)| < TWO_63 && WholeUnknown(unknown, kinds) && ApplyAll(fs, apply, b).Ok?
    ensures Decode(EncodeFields(fs, unknown), kinds, apply, Msg(b, [])) ==
            Ok(Msg(ApplyAll(fs, apply, b).value, unknown))
  {
    AllGood(fs, unknown);
    DecodeEncoded(fs, unknown, kinds, apply, Msg(b, []));
    DecodeUnknown(unknown, kinds, apply, Msg(ApplyAll(fs, apply, b).value, []));
    assert [] + unknown == unknown;
  }

  // ---------------------------------------------------------------- unknown bytes of what was read

  /** The first `n` bytes are the same. */
  ghost predicate SameUpTo(s: Bytes, t: Bytes, n: nat) {
    n <= |s| && n <= |t| && s[..n] == t[..n]
  }

  lemma {:induction false} SameAfter(s: Bytes, t: Bytes, n: nat, k: nat)
    requires SameUpTo(s, t, n) && k <= n
    ensures SameUpTo(s[k..], t[k..], n - k) && SameUpTo(s, t, k)
  {
    assert s[k..][..n - k] == s[..n][k..] && t[k..][..n - k] == t[..n][k..];
    assert s[..k] == s[..n][..k] && t[..k] == t[..n][..k];
  }

  /** A varint is read from its own bytes. */
  lemma {:induction false} RawIsStable(s: Bytes, t: Bytes, k: nat)
    requires ReadRaw(s, k).Got? && SameUpTo(s, t, ReadRaw(s, k).n)
    ensures ReadRaw(t, k) == ReadRaw(s, k)
    decreases k
  {
    var n := ReadRaw(s, k).n;
    assert s[0] == s[..n][0] && t[0] == t[..n][0];
    if s[0] >= 128 {
      SameAfter(s, t, n, 1);
      RawIsStable(s[1..], t[1..], k - 1);
    }
  }

  /** So is an element. */
  lemma {:induction false} ElementIsStable(s: Bytes, t: Bytes, depth: nat)
    requires SkipElement(s, depth).Got? && SameUpTo(s, t, SkipElement(s, depth).n)
    ensures SkipElement(t, depth) == SkipElement(s, depth)
  {
    var n, m := ReadRaw(s, 10).n, SkipElement(s, depth).n;
    SameAfter(s, t, m, n);
    RawIsStable(s, t, 10);
    var wireType := ReadVarint(s).value % 8;
    if wireType == 0 || wireType == 2 {
      SameAfter(s[n..], t[n..], m - n, ReadRaw(s[n..], 10).n);
      RawIsStable(s[n..], t[n..], 10);
    }
  }

  /** So is what is skipped as a whole. */
  lemma {:induction false} SkipIsStable(s: Bytes, t: Bytes, depth: nat)
    requires Skip(s, depth).Got? && SameUpTo(s, t, Skip(s, depth).n)
    ensures Skip(t, depth) == Skip(s, depth)
    decreases |s|
  {
    var n, all := SkipElement(s, depth).n, Skip(s, depth).n;
    SameAfter(s, t, all, n);
    ElementIsStable(s, t, depth);
    if SkipElement(s, depth).value != 0 {
      SkipIsStable(s[n..], t[n..], SkipElement(s, depth).value);
    }
  }

  lemma {:induction false} UnknownIsStable(s: Bytes, t: Bytes, kinds: Kinds)
    requires ReadField(s, kinds).Got? && ReadField(s, kinds).value.UnknownField?
    requires SameUpTo(s, t, ReadField(s, kinds).n)
    ensures ReadField(t, kinds) == ReadField(s, kinds)
  {
    UnknownIsPrefix(s, kinds);
    var n := ReadField(s, kinds).n;
    SkipIsStable(s, t, 0);
    assert ReadVarint(s).n <= SkipElement(s, 0).n <= n;
    SameAfter(s, t, n, ReadVarint(s).n);
    RawIsStable(s, t, 10);
  }

  lemma {:induction false} WholeFromFirst(data: Bytes, n: nat, kinds: Kinds)
    requires data != [] && ReadField(data, kinds).Got? && ReadField(data, kinds).value.UnknownField?
    requires ReadField(data, kinds).n == n
    requires WholeUnknown(data[n..], kinds)
    ensures WholeUnknown(data, kinds)
  {
  }

  lemma {:induction false} WholeThenMore(data: Bytes, more: Bytes, kinds: Kinds)
    requires WholeUnknown(data, kinds) && WholeUnknown(more, kinds)
    ensures WholeUnknown(data + more, kinds)
    decreases |data|
  {
    var all := data + more;
    if data == [] {
      NoneMore(more);
    } else {
      var n := ReadField(data, kinds).n;
      assert all[..n] == data[..n] && all[n..] == data[n..] + more;
      UnknownIsStable(data, all, kinds);
      WholeThenMore(data[n..], more, kinds);
      WholeFromFirst(all, n, kinds);
    }
  }

  /** What decoding keeps as unrecognized is whole, so that marshalling the message again writes no torn field. */
  lemma {:induction false} UnrecognizedIsWhole<B>(s: Bytes, kinds: Kinds, apply: Apply<B>, m: Msg<B>)
    requires WholeUnknown(m.unrecognized, kinds) && Decode(s, kinds, apply, m).Ok?
    ensures WholeUnknown(Decode(s, kinds, apply, m).value.unrecognized, kinds)
    decreases |s|
  {
    if s != [] {
      var r := ReadField(s, kinds);
      var m' := ApplyField(m, r.value, apply).value;
      if r.value.UnknownField? {
        UnknownIsPrefix(s, kinds);
        var first := s[..r.n];
        UnknownIsStable(s, first, kinds);
        assert first[r.n..] == [];
        WholeThenMore(m.unrecognized, first, kinds);
      }
      UnrecognizedIsWhole(s[r.n..], kinds, apply, m');
    }
  }

  /** Fields as the encoder writes them, none of them expected, are whole. */
  lemma {:induction false} UnexpectedIsWhole(us: seq<Field>, kinds: Kinds)
    requires forall i | 0 <= i < |us| :: GoodField(us[i]) && kinds(us[i].num) == KNone
    ensures WholeUnknown(EncodeFields(us, []), kinds)
  {
    if us != [] {
      var first, rest := EncodeField(us[0]), EncodeFields(us[1..], []);
      UnknownRoundTrip(us[0], kinds, rest);
      UnexpectedIsWhole(us[1..], kinds);
      assert (first + rest)[|first|..] == rest;
    }
  }

  // ---------------------------------------------------------------- the fields of a message

  /** A number that is left out when it is zero, before other fields. */
  function OptVarint(num: nat, v: nat, fs: seq<Field>): seq<Field> {
    if v == 0 then fs else [VarintField(num, v)] + fs
  }

  /** Both zeros of float64 are left out. */
  predicate FloatIsZero(bits: nat) {
    bits == 0 || bits == TWO_63
  }

  function OptFloat(num: nat, bits: nat, fs: seq<Field>): seq<Field> {
    if FloatIsZero(bits) then fs else [FixedField(num, bits)] + fs
  }

  function OptBytes(num: nat, data: Bytes, fs: seq<Field>): seq<Field> {
    if data == [] then fs else [BytesField(num, data)] + fs
  }

  function OptVarints(num: nat, vs: seq<nat>, fs: seq<Field>): seq<Field> {
    if vs == [] then fs else [VarintsField(num, vs)] + fs
  }

  function OptFixeds(num: nat, vs: seq<nat>, fs: seq<Field>): seq<Field> {
    if vs == [] then fs else [FixedsField(num, vs)] + fs
  }

  /** One record per element. */
  function Repeated<X>(num: nat, xs: seq<X>, enc: X -> Bytes, fs: seq<Field>): seq<Field> {
    if xs == [] then fs else [BytesField(num, enc(xs[0]))] + Repeated(num, xs[1..], enc, fs)
  }

  lemma {:induction false} ApplyFirst<B>(f: Field, fs: seq<Field>, apply: Apply<B>, b: B)
    ensures ApplyAll([f] + fs, apply, b) ==
            match apply(b, f) case Err(e) => Err(e) case Ok(b') => ApplyAll(fs, apply, b')
  {
    assert ([f] + fs)[1..] == fs;
  }

  function Map<X, Y>(f: X -> Y, xs: seq<X>): (ys: seq<Y>)
    ensures |ys| == |xs| && forall i | 0 <= i < |xs| :: ys[i] == f(xs[i])
  {
    seq(|xs|, i requires 0 <= i < |xs| => f(xs[i]))
  }

  /** A repeated field appends one element after the other. `enc` writes an element and `norm` is what is read back. */
  lemma {:induction false} RepeatedApplies<B(!new), X(!new)>(num: nat, xs: seq<X>, enc: X -> Bytes, norm: X -> X,
                                             fs: seq<Field>, apply: Apply<B>, put: seq<X> -> B, ys: seq<X>)
    requires forall zs, x | x in xs :: apply(put(zs), BytesField(num, enc(x))) == Ok(put(zs + [norm(x)]))
    ensures ApplyAll(Repeated(num, xs, enc, fs), apply, put(ys)) == ApplyAll(fs, apply, put(ys + Map(norm, xs)))
  {
    if xs == [] {
      assert ys + Map(norm, xs) == ys;
    } else {
      assert apply(put(ys), BytesField(num, enc(xs[0]))) == Ok(put(ys + [norm(xs[0])]));
      ApplyFirst(BytesField(num, enc(xs[0])), Repeated(num, xs[1..], enc, fs), apply, put(ys));
      RepeatedApplies(num, xs[1..], enc, norm, fs, apply, put, ys + [norm(xs[0])]);
      assert ys + [norm(xs[0])] + Map(norm, xs[1..]) == ys + Map(norm, xs);
    }
  }
}
