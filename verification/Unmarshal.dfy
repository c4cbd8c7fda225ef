/**
 Unmarshalling (prompb/types.pb.go, prompb/remote.pb.go): the loops over the bytes of
 a message, with an index into them. A message type gives what it expects in its
 fields and what a field does to it. Or-ing in the bits of a byte is written as
 addition, since they stand above all that was read before.
 */
module Unmarshal {
  import opened Prelude
  import opened Wire
  import opened Messages
  import opened Marshal
  import opened Sizes

  // ---------------------------------------------------------------- varints

  /** v |= uint64(b & 0x7F) << shift, where `power` is 1 << shift. */
  function AddBits(v: nat, power: nat, b: Byte): nat {
    (v + power * (b % 128)) % TWO_64
  }

  /** After `k` bytes of a varint, worth `v`. */
  ghost predicate Partly(s: Bytes, start: nat, k: nat, v: nat) {
    && start + k <= |s| && k <= 10
    && ReadVarint(s[start..]) == Scaled(v, k, ReadRaw(s[start + k..], 10 - k))
  }

  function Scaled(v: nat, k: nat, r: Parsed<nat>): Parsed<nat> {
    if r.Bad? then r else Got((v + Pow128(k) * r.value) % TWO_64, k + r.n)
  }

  lemma ModAdd(a: nat, d: nat)
    ensures (a % TWO_64 + d) % TWO_64 == (a + d) % TWO_64
  {
    assert a == a / TWO_64 * TWO_64 + a % TWO_64;
  }

  lemma Distributes(p: nat, q: nat, x: nat, y: nat)
    requires q == 128 * p
    ensures p * (x + 128 * y) == p * x + q * y
  {
  }

  lemma Shifted(v: nat, p: nat, q: nat, b: Byte, y: nat)
    requires q == 128 * p && b >= 128
    ensures (v + p * (b - 128 + 128 * y)) % TWO_64 == (AddBits(v, p, b) + q * y) % TWO_64
  {
    Distributes(p, q, b - 128, y);
    assert b % 128 == b - 128;
    ModAdd(v + p * (b % 128), q * y);
  }

  /** What a byte with more to follow adds. */
  function Longer(b: nat, rest: Parsed<nat>): Parsed<nat>
    requires b >= 128
  {
    if rest.Bad? then rest else Got(b - 128 + 128 * rest.value, 1 + rest.n)
  }

  lemma {:induction false} ScaledLonger(v: nat, k: nat, b: Byte, rest: Parsed<nat>)
    requires b >= 128
    ensures Scaled(v, k, Longer(b, rest)) == Scaled(AddBits(v, Pow128(k), b), k + 1, rest)
  {
    if rest.Got? {
      Shifted(v, Pow128(k), Pow128(k + 1), b, rest.value);
    }
  }

  lemma {:induction false} PartlyEnds(s: Bytes, start: nat, k: nat, v: nat)
    requires Partly(s, start, k, v)
    ensures k == 10 ==> ReadVarint(s[start..]) == Bad(IntOverflow)
    ensures k < 10 && start + k == |s| ==> ReadVarint(s[start..]) == Bad(UnexpectedEOF)
    ensures k < 10 && start + k < |s| && s[start + k] < 128 ==>
              ReadVarint(s[start..]) == Got(AddBits(v, Pow128(k), s[start + k]), k + 1)
  {
  }

  lemma {:induction false} PartlyStep(s: Bytes, start: nat, k: nat, v: nat)
    requires Partly(s, start, k, v) && k < 10 && start + k < |s| && s[start + k] >= 128
    ensures Partly(s, start, k + 1, AddBits(v, Pow128(k), s[start + k]))
  {
    var i := start + k;
    assert s[i..][1..] == s[i + 1..];
    var rest := ReadRaw(s[i + 1..], 9 - k);
    assert ReadRaw(s[i..], 10 - k) == Longer(s[i], rest);
    ScaledLonger(v, k, s[i], rest);
  }

  /** The inline loop over the bytes of a varint. */
  method ReadVarintAt(s: Bytes, start: nat) returns (r: Parsed<nat>)
    requires start <= |s|
    ensures r == ReadVarint(s[start..])
  {
    var k: nat, power: nat, v: nat := 0, 1, 0;
    while true
      invariant Partly(s, start, k, v) && power == Pow128(k)
      decreases 10 - k
    {
      PartlyEnds(s, start, k, v);
      if k >= 10 { return Bad(IntOverflow); }
      if start + k >= |s| { return Bad(UnexpectedEOF); }
      var b := s[start + k];
      if b >= 128 { PartlyStep(s, start, k, v); }
      v := AddBits(v, power, b);
      if b < 128 { return Got(v, k + 1); }
      k, power := k + 1, 128 * power;
    }
  }

  // ---------------------------------------------------------------- packed numbers

  lemma Slice(s: Bytes, i: nat, n: nat)
    requires i + n <= |s|
    ensures s[i..][n..] == s[i + n..]
  {
  }

  lemma FurtherTwice<T>(n: nat, m: nat, r: Parsed<T>)
    ensures Further(n, Further(m, r)) == Further(n + m, r)
  {
  }

  /** `vs` have been read up to `i`. */
  ghost predicate VarintsSoFar(s: Bytes, start: nat, length: nat, i: nat, vs: seq<nat>) {
    start <= i <= |s| &&
      ReadVarints(s[start..], length, []) == Further(i - start, ReadVarints(s[i..], start + length - i, vs))
  }

  lemma {:induction false} VarintsSoFarStep(s: Bytes, start: nat, length: nat, i: nat, vs: seq<nat>)
    requires VarintsSoFar(s, start, length, i, vs)
    ensures i >= start + length ==> ReadVarints(s[start..], length, []) == Got(vs, i - start)
    ensures i < start + length ==>
              var r := ReadVarint(s[i..]);
              if r.Bad? then ReadVarints(s[start..], length, []) == Bad(r.error)
              else VarintsSoFar(s, start, length, i + r.n, vs + [r.value])
  {
    if i < start + length {
      var r := ReadVarint(s[i..]);
      if r.Got? {
        Slice(s, i, r.n);
        FurtherTwice(i - start, r.n, ReadVarints(s[i + r.n..], start + length - (i + r.n), vs + [r.value]));
      }
    }
  }

  /** The loop over packed varints. */
  method ReadVarintsAt(s: Bytes, start: nat, length: nat) returns (r: Parsed<seq<nat>>)
    requires start <= |s|
    ensures r == ReadVarints(s[start..], length, [])
  {
    var i, vs := start, [];
    while i < start + length
      invariant VarintsSoFar(s, start, length, i, vs)
      decreases start + length - i
    {
      VarintsSoFarStep(s, start, length, i, vs);
      var v := ReadVarintAt(s, i);
      if v.Bad? { return Bad(v.error); }
      i, vs := i + v.n, vs + [v.value];
    }
    VarintsSoFarStep(s, start, length, i, vs);
    return Got(vs, i - start);
  }

  method ReadFixedAt(s: Bytes, i: nat) returns (r: Parsed<nat>)
    requires i <= |s|
    ensures r == ReadFixed(s[i..])
  {
    if i + 8 > |s| { return Bad(UnexpectedEOF); }
    assert s[i..][..8] == s[i..i + 8];
    return Got(FromLittleEndian(s[i..i + 8]), 8);
  }

  ghost predicate FixedsSoFar(s: Bytes, start: nat, length: nat, i: nat, vs: seq<nat>) {
    start <= i <= |s| &&
      ReadFixeds(s[start..], length, []) == Further(i - start, ReadFixeds(s[i..], start + length - i, vs))
  }

  lemma {:induction false} FixedsSoFarStep(s: Bytes, start: nat, length: nat, i: nat, vs: seq<nat>)
    requires FixedsSoFar(s, start, length, i, vs)
    ensures i >= start + length ==> ReadFixeds(s[start..], length, []) == Got(vs, i - start)
    ensures i < start + length ==>
              var r := ReadFixed(s[i..]);
              if r.Bad? then ReadFixeds(s[start..], length, []) == Bad(r.error)
              else FixedsSoFar(s, start, length, i + r.n, vs + [r.value])
  {
    if i < start + length {
      var r := ReadFixed(s[i..]);
      if r.Got? {
        Slice(s, i, r.n);
        FurtherTwice(i - start, r.n, ReadFixeds(s[i + r.n..], start + length - (i + r.n), vs + [r.value]));
      }
    }
  }

  /** The loop over packed floats. */
  method ReadFixedsAt(s: Bytes, start: nat, length: nat) returns (r: Parsed<seq<nat>>)
    requires start <= |s|
    ensures r == ReadFixeds(s[start..], length, [])
  {
    var i, vs := start, [];
    while i < start + length
      invariant FixedsSoFar(s, start, length, i, vs)
      decreases start + length - i
    {
      FixedsSoFarStep(s, start, length, i, vs);
      var v := ReadFixedAt(s, i);
      if v.Bad? { return Bad(v.error); }
      i, vs := i + v.n, vs + [v.value];
    }
    FixedsSoFarStep(s, start, length, i, vs);
    return Got(vs, i - start);
  }

  method ReadLengthAt(s: Bytes, i: nat) returns (r: Parsed<nat>)
    requires i <= |s|
    ensures r == ReadLength(s[i..])
  {
    r := ReadVarintAt(s, i);
    if r.Got? {
      if r.value >= TWO_63 { return Bad(InvalidLength); }
      if i + r.n + r.value > |s| { return Bad(UnexpectedEOF); }
    }
  }

  method ReadDelimitedAt(s: Bytes, i: nat) returns (r: Parsed<Bytes>)
    requires i <= |s|
    ensures r == ReadDelimited(s[i..])
  {
    var length := ReadLengthAt(s, i);
    if length.Bad? { return Bad(length.error); }
    var from := i + length.n;
    assert s[i..][length.n..length.n + length.value] == s[from..from + length.value];
    return Got(s[from..from + length.value], length.n + length.value);
  }

  method ReadPackedAt(s: Bytes, i: nat, fixed: bool) returns (r: Parsed<seq<nat>>)
    requires i <= |s|
    ensures r == ReadPacked(s[i..], fixed)
  {
    var length := ReadLengthAt(s, i);
    if length.Bad? { return Bad(length.error); }
    Slice(s, i, length.n);
    if fixed {
      r := ReadFixedsAt(s, i + length.n, length.value);
    } else {
      r := ReadVarintsAt(s, i + length.n, length.value);
    }
    if r.Got? { r := Got(r.value, length.n + r.n); }
  }

  // ---------------------------------------------------------------- skipping

  /** `k` bytes of a varint have been passed. */
  ghost predicate Passed(s: Bytes, start: nat, k: nat) {
    && start + k <= |s| && k <= 10
    && var whole, rest := ReadRaw(s[start..], 10), ReadRaw(s[start + k..], 10 - k);
       if rest.Bad? then whole == rest else whole.Got? && whole.n == k + rest.n
  }

  lemma {:induction false} PassedStep(s: Bytes, start: nat, k: nat)
    requires Passed(s, start, k)
    ensures var whole := ReadRaw(s[start..], 10);
            if k == 10 then whole == Bad(IntOverflow)
            else if start + k == |s| then whole == Bad(UnexpectedEOF)
            else if s[start + k] < 128 then whole.Got? && whole.n == k + 1
            else Passed(s, start, k + 1)
  {
    if k < 10 && start + k < |s| {
      Slice(s, start + k, 1);
    }
  }

  /** A varint that is passed over: how long it is. */
  method SkipVarintAt(s: Bytes, start: nat) returns (r: Parsed<nat>)
    requires start <= |s|
    ensures var whole := ReadRaw(s[start..], 10);
            if whole.Bad? then r == whole else r.Got? && r.n == whole.n
  {
    var k: nat := 0;
    while true
      invariant Passed(s, start, k)
      decreases 10 - k
    {
      PassedStep(s, start, k);
      if k >= 10 { return Bad(IntOverflow); }
      if start + k >= |s| { return Bad(UnexpectedEOF); }
      k := k + 1;
      if s[start + k - 1] < 128 { return Got(0, k); }
    }
  }

  method SkipElementAt(s: Bytes, i: nat, depth: nat) returns (r: Parsed<nat>)
    requires i <= |s|
    ensures r == SkipElement(s[i..], depth)
  {
    var tag := ReadVarintAt(s, i);
    if tag.Bad? { return Bad(tag.error); }
    var n := tag.n;
    Slice(s, i, n);
    match tag.value % 8
    case 0 =>
      var v := SkipVarintAt(s, i + n);
      r := if v.Bad? then Bad(v.error) else Got(depth, n + v.n);
    case 1 => r := Got(depth, n + 8);
    case 2 =>
      var length := ReadVarintAt(s, i + n);
      if length.Bad? { return Bad(length.error); }
      r := if length.value >= TWO_63 then Bad(InvalidLength) else Got(depth, n + length.n + length.value);
    case 3 => r := Got(depth + 1, n);
    case 4 => r := if depth == 0 then Bad(UnexpectedEndOfGroup) else Got(depth - 1, n);
    case 5 => r := Got(depth, n + 4);
    case _ => r := Bad(IllegalWireType);
  }

  /** Skipping on from `i`, inside `depth` groups, gives `want`; the last element may have run past the end. */
  ghost predicate SkipLeadsTo(s: Bytes, start: nat, i: nat, depth: nat, want: Parsed<nat>) {
    start <= i && want == if i < |s| then Further(i - start, Skip(s[i..], depth)) else Bad(UnexpectedEOF)
  }

  lemma {:induction false} SkipUnfolds(s: Bytes, i: nat, depth: nat, r: Parsed<nat>)
    requires i < |s| && r == SkipElement(s[i..], depth)
    ensures r.Bad? ==> Skip(s[i..], depth) == Bad(r.error)
    ensures r.Got? && r.value == 0 ==> Skip(s[i..], depth) == Got(0, r.n)
    ensures r.Got? && r.value > 0 && i + r.n >= |s| ==> Skip(s[i..], depth) == Bad(UnexpectedEOF)
  {
  }

  lemma {:induction false} SkipUnfoldsFurther(s: Bytes, i: nat, depth: nat, r: Parsed<nat>)
    requires i < |s| && r == SkipElement(s[i..], depth) && r.Got? && r.value > 0 && i + r.n < |s|
    ensures Skip(s[i..], depth) == Further(r.n, Skip(s[i + r.n..], r.value))
  {
    Slice(s, i, r.n);
  }

  lemma {:induction false} SkipLeadsToStep(s: Bytes, start: nat, i: nat, depth: nat, want: Parsed<nat>, r: Parsed<nat>)
    requires SkipLeadsTo(s, start, i, depth, want) && i < |s| && r == SkipElement(s[i..], depth)
    ensures r.Bad? ==> want == Bad(r.error)
    ensures r.Got? && r.value == 0 ==> want == Got(0, i + r.n - start)
    ensures r.Got? && r.value > 0 ==> SkipLeadsTo(s, start, i + r.n, r.value, want)
  {
    SkipUnfolds(s, i, depth, r);
    if r.Got? && r.value > 0 && i + r.n < |s| {
      SkipUnfoldsFurther(s, i, depth, r);
      FurtherTwice(i - start, r.n, Skip(s[i + r.n..], r.value));
    }
  }

  /** skipTypes. */
  method SkipAt(s: Bytes, start: nat) returns (r: Parsed<nat>)
    requires start <= |s|
    ensures r == Skip(s[start..], 0)
  {
    var i, depth := start, 0;
    ghost var want := Skip(s[start..], 0);
    while i < |s|
      invariant SkipLeadsTo(s, start, i, depth, want)
      decreases |s| - i
    {
      var e := SkipElementAt(s, i, depth);
      SkipLeadsToStep(s, start, i, depth, want, e);
      if e.Bad? { return Bad(e.error); }
      i, depth := i + e.n, e.value;
      if depth == 0 { return Got(0, i - start); }
    }
    return Bad(UnexpectedEOF);
  }

  // ---------------------------------------------------------------- fields and messages

  method ReadTagAt(s: Bytes, i: nat) returns (r: Parsed<TagInfo>)
    requires i <= |s|
    ensures r == ReadTag(s[i..])
  {
    var wire := ReadVarintAt(s, i);
    if wire.Bad? { return Bad(wire.error); }
    var num, wireType := wire.value / 8 % TWO_32, wire.value % 8;
    if wireType == 4 { return Bad(EndGroup); }
    if num == 0 || num >= TWO_31 { return Bad(IllegalTag); }  // int32(wire >> 3) <= 0
    return Got(TagInfo(num, wireType), wire.n);
  }

  /** One number. */
  method ReadNumberAt(s: Bytes, i: nat, n: nat, num: nat, wireType: nat, kind: Kind) returns (r: Parsed<Field>)
    requires 0 < n && i + n <= |s| && kind != KNone && wireType < 2
    ensures r == ReadBody(s[i..], n, num, wireType, kind)
  {
    Slice(s, i, n);
    if wireType == 0 && (kind == KVarint || kind == KVarints) {
      var v := ReadVarintAt(s, i + n);
      if v.Bad? { return Bad(v.error); }
      r := Got(if kind == KVarint then VarintField(num, v.value) else VarintsField(num, [v.value]), n + v.n);
    } else if wireType == 1 && (kind == KFixed || kind == KFixeds) {
      var v := ReadFixedAt(s, i + n);
      if v.Bad? { return Bad(v.error); }
      r := Got(if kind == KFixed then FixedField(num, v.value) else FixedsField(num, [v.value]), n + v.n);
    } else {
      r := Bad(WrongWireType);
    }
  }

  /** A record: bytes, or packed numbers. */
  method ReadRecordAt(s: Bytes, i: nat, n: nat, num: nat, wireType: nat, kind: Kind) returns (r: Parsed<Field>)
    requires 0 < n && i + n <= |s| && kind != KNone && wireType >= 2
    ensures r == ReadBody(s[i..], n, num, wireType, kind)
  {
    Slice(s, i, n);
    if wireType == 2 && kind == KBytes {
      var data := ReadDelimitedAt(s, i + n);
      if data.Bad? { return Bad(data.error); }
      r := Got(BytesField(num, data.value), n + data.n);
    } else if wireType == 2 && (kind == KVarints || kind == KFixeds) {
      r := ReadNumbersAt(s, i, n, num, kind);
    } else {
      r := Bad(WrongWireType);
    }
  }

  method ReadNumbersAt(s: Bytes, i: nat, n: nat, num: nat, kind: Kind) returns (r: Parsed<Field>)
    requires 0 < n && i + n <= |s| && (kind == KVarints || kind == KFixeds)
    ensures r == ReadBody(s[i..], n, num, 2, kind)
  {
    Slice(s, i, n);
    if kind == KFixeds {
      var vs := ReadPackedAt(s, i + n, true);
      if vs.Bad? { return Bad(vs.error); }
      r := Got(FixedsField(num, vs.value), n + vs.n);
    } else {
      var vs := ReadPackedAt(s, i + n, false);
      if vs.Bad? { return Bad(vs.error); }
      r := Got(VarintsField(num, vs.value), n + vs.n);
    }
  }

  /** The default case: the whole field is kept, tag included. */
  method ReadUnknownAt(s: Bytes, i: nat, ghost n: nat, ghost num: nat, ghost wireType: nat) returns (r: Parsed<Field>)
    requires 0 < n && i + n <= |s|
    ensures r == ReadBody(s[i..], n, num, wireType, KNone)
  {
    Slice(s, i, n);
    var skippy := SkipAt(s, i);
    if skippy.Bad? { return Bad(skippy.error); }
    if i + skippy.n > |s| { return Bad(UnexpectedEOF); }
    assert s[i..][..skippy.n] == s[i..i + skippy.n];
    return Got(UnknownField(s[i..i + skippy.n]), skippy.n);
  }

  method ReadBodyAt(s: Bytes, i: nat, n: nat, num: nat, wireType: nat, kind: Kind) returns (r: Parsed<Field>)
    requires 0 < n && i + n <= |s|
    ensures r == ReadBody(s[i..], n, num, wireType, kind)
  {
    if kind == KNone {
      r := ReadUnknownAt(s, i, n, num, wireType);
    } else if wireType < 2 {
      r := ReadNumberAt(s, i, n, num, wireType, kind);
    } else {
      r := ReadRecordAt(s, i, n, num, wireType, kind);
    }
  }

  method ReadFieldAt(s: Bytes, i: nat, kinds: Kinds) returns (r: Parsed<Field>)
    requires i <= |s|
    ensures r == ReadField(s[i..], kinds)
  {
    var tag := ReadTagAt(s, i);
    if tag.Bad? { return Bad(tag.error); }
    Slice(s, i, tag.n);
    r := ReadBodyAt(s, i, tag.n, tag.value.num, tag.value.wireType, kinds(tag.value.num));
  }

  lemma {:induction false} DecodeEnds<B>(kinds: Kinds, apply: Apply<B>, m: Msg<B>)
    ensures Decode([], kinds, apply, m) == Ok(m)
  {
  }

  lemma {:induction false} DecodeError<B>(s: Bytes, kinds: Kinds, apply: Apply<B>, m: Msg<B>, f: Parsed<Field>)
    requires s != [] && ReadField(s, kinds) == f
    ensures f.Bad? ==> Decode(s, kinds, apply, m) == Err(f.error)
    ensures f.Got? && ApplyField(m, f.value, apply).Err? ==>
              Decode(s, kinds, apply, m) == Err(ApplyField(m, f.value, apply).error)
  {
  }

  lemma {:induction false} DecodeStep<B>(s: Bytes, kinds: Kinds, apply: Apply<B>, m: Msg<B>, f: Field, n: nat,
                                         m': Msg<B>)
    requires s != [] && ReadField(s, kinds) == Got(f, n) && ApplyField(m, f, apply) == Ok(m')
    ensures Decode(s, kinds, apply, m) == Decode(s[n..], kinds, apply, m')
  {
  }

  /** One field: the message after it, and what is left to read. */
  method UnmarshalField<B>(s: Bytes, i: nat, kinds: Kinds, apply: Apply<B>, m: Msg<B>, ghost rest: Bytes)
    returns (next: Result<Msg<B>, Error>, n: nat)
    requires i < |s| && rest == s[i..]
    ensures next.Err? ==> Decode(rest, kinds, apply, m) == next
    ensures next.Ok? ==> 0 < n <= |rest| && Decode(rest, kinds, apply, m) == Decode(rest[n..], kinds, apply, next.value)
  {
    var f := ReadFieldAt(s, i, kinds);
    DecodeError(rest, kinds, apply, m, f);
    if f.Bad? { return Err(f.error), 0; }
    match ApplyField(m, f.value, apply)
    case Err(e) => return Err(e), 0;
    case Ok(m') =>
      DecodeStep(rest, kinds, apply, m, f.value, f.n, m');
      return Ok(m'), f.n;
  }

  /** Unmarshal: the loop that every message type has, over its own fields. */
  method Unmarshal<B>(s: Bytes, kinds: Kinds, apply: Apply<B>, b: B) returns (r: Result<Msg<B>, Error>)
    ensures r == Decode(s, kinds, apply, Msg(b, []))
  {
    var i: nat, m := 0, Msg(b, []);
    ghost var want, rest := Decode(s, kinds, apply, m), s;
    while i < |s|
      invariant i <= |s| && rest == s[i..] && Decode(rest, kinds, apply, m) == want
      decreases |s| - i
    {
      var next, n := UnmarshalField(s, i, kinds, apply, m, rest);
      if next.Err? { return next; }
      Slice(s, i, n);
      i, m, rest := i + n, next.value, rest[n..];
    }
    DecodeEnds(kinds, apply, m);
    return Ok(m);
  }

  // Messages with messages in them.

  /** The message after a field, given what the field does to its body. */
  function Absorb<B>(m: Msg<B>, f: Field, b: Result<B, Error>): Result<Msg<B>, Error> {
    if f.UnknownField? then Ok(m.(unrecognized := m.unrecognized + f.data))
    else if b.Err? then Err(b.error)
    else Ok(m.(body := b.value))
  }

  lemma {:induction false} FieldAbsorbed<B>(s: Bytes, kinds: Kinds, apply: Apply<B>, m: Msg<B>, f: Parsed<Field>,
                                            next: Result<Msg<B>, Error>)
    requires s != [] && f.Got? && ReadField(s, kinds) == f && next == Absorb(m, f.value, apply(m.body, f.value))
    ensures next.Err? ==> Decode(s, kinds, apply, m) == next
    ensures next.Ok? ==> Decode(s, kinds, apply, m) == Decode(s[f.n..], kinds, apply, next.value)
  {
  }

  method ExemplarField(b: ExemplarBody, f: Field) returns (r: Result<ExemplarBody, Error>)
    ensures r == ApplyExemplar(b, f)
  {
    if f.BytesField? {
      var x := Unmarshal(f.data, LabelKinds, ApplyLabel, EMPTY_LABEL);
      return if x.Err? then Err(x.error) else Ok(b.(labels := b.labels + [x.value]));
    }
    r := ApplyExemplar(b, f);
  }

  method UnmarshalExemplar(s: Bytes) returns (r: Result<Exemplar, Error>)
    ensures r == DecodeExemplar(s)
  {
    var i: nat, m := 0, Msg(EMPTY_EXEMPLAR, []);
    ghost var rest := s;
    while i < |s|
      invariant i <= |s| && rest == s[i..] && Decode(rest, ExemplarKinds, ApplyExemplar, m) == DecodeExemplar(s)
      decreases |s| - i
    {
      var f := ReadFieldAt(s, i, ExemplarKinds);
      DecodeError(rest, ExemplarKinds, ApplyExemplar, m, f);
      if f.Bad? { return Err(f.error); }
      var b := ExemplarField(m.body, f.value);
      var next := Absorb(m, f.value, b);
      FieldAbsorbed(rest, ExemplarKinds, ApplyExemplar, m, f, next);
      if next.Err? { return next; }
      Slice(s, i, f.n);
      i, m, rest := i + f.n, next.value, rest[f.n..];
    }
    DecodeEnds(ExemplarKinds, ApplyExemplar, m);
    return Ok(m);
  }

  method HistogramField(b: HistogramBody, f: Field) returns (r: Result<HistogramBody, Error>)
    ensures r == ApplyHistogram(b, f)
  {
    if f.BytesField? {
      var span := Unmarshal(f.data, BucketSpanKinds, ApplyBucketSpan, EMPTY_SPAN);
      if span.Err? { return Err(span.error); }
      return Ok(if f.num == 8 then b.(negativeSpans := b.negativeSpans + [span.value])
                else b.(positiveSpans := b.positiveSpans + [span.value]));
    }
    r := ApplyHistogram(b, f);
  }

  method UnmarshalHistogram(s: Bytes) returns (r: Result<Messages.Histogram, Error>)
    ensures r == DecodeHistogram(s)
  {
    var i: nat, m := 0, Msg(EMPTY_HISTOGRAM, []);
    ghost var rest := s;
    while i < |s|
      invariant i <= |s| && rest == s[i..] && Decode(rest, HistogramKinds, ApplyHistogram, m) == DecodeHistogram(s)
      decreases |s| - i
    {
      var f := ReadFieldAt(s, i, HistogramKinds);
      DecodeError(rest, HistogramKinds, ApplyHistogram, m, f);
      if f.Bad? { return Err(f.error); }
      var b := HistogramField(m.body, f.value);
      var next := Absorb(m, f.value, b);
      FieldAbsorbed(rest, HistogramKinds, ApplyHistogram, m, f, next);
      if next.Err? { return next; }
      Slice(s, i, f.n);
      i, m, rest := i + f.n, next.value, rest[f.n..];
    }
    DecodeEnds(HistogramKinds, ApplyHistogram, m);
    return Ok(m);
  }

  method TimeSeriesField(b: TimeSeriesBody, f: Field) returns (r: Result<TimeSeriesBody, Error>)
    ensures r == ApplyTimeSeries(b, f)
  {
    if !f.BytesField? {
      return Ok(b);
    }
    if f.num == 1 {
      var x := Unmarshal(f.data, LabelKinds, ApplyLabel, EMPTY_LABEL);
      r := if x.Err? then Err(x.error) else Ok(b.(labels := b.labels + [x.value]));
    } else if f.num == 2 {
      var x := Unmarshal(f.data, SampleKinds, ApplySample, EMPTY_SAMPLE);
      r := if x.Err? then Err(x.error) else Ok(b.(samples := b.samples + [x.value]));
    } else if f.num == 3 {
      var x := UnmarshalExemplar(f.data);
      r := if x.Err? then Err(x.error) else Ok(b.(exemplars := b.exemplars + [x.value]));
    } else {
      var x := UnmarshalHistogram(f.data);
      r := if x.Err? then Err(x.error) else Ok(b.(histograms := b.histograms + [x.value]));
    }
  }

  method UnmarshalTimeSeries(s: Bytes) returns (r: Result<TimeSeries, Error>)
    ensures r == DecodeTimeSeries(s)
  {
    var i: nat, m := 0, Msg(EMPTY_TIME_SERIES, []);
    ghost var rest := s;
    while i < |s|
      invariant i <= |s| && rest == s[i..] && Decode(rest, TimeSeriesKinds, ApplyTimeSeries, m) == DecodeTimeSeries(s)
      decreases |s| - i
    {
      var f := ReadFieldAt(s, i, TimeSeriesKinds);
      DecodeError(rest, TimeSeriesKinds, ApplyTimeSeries, m, f);
      if f.Bad? { return Err(f.error); }
      var b := TimeSeriesField(m.body, f.value);
      var next := Absorb(m, f.value, b);
      FieldAbsorbed(rest, TimeSeriesKinds, ApplyTimeSeries, m, f, next);
      if next.Err? { return next; }
      Slice(s, i, f.n);
      i, m, rest := i + f.n, next.value, rest[f.n..];
    }
    DecodeEnds(TimeSeriesKinds, ApplyTimeSeries, m);
    return Ok(m);
  }

  method WriteRequestField(b: WriteRequestBody, f: Field) returns (r: Result<WriteRequestBody, Error>)
    ensures r == ApplyWriteRequest(b, f)
  {
    if !f.BytesField? {
      return Ok(b);
    }
    if f.num == 1 {
      var x := UnmarshalTimeSeries(f.data);
      r := if x.Err? then Err(x.error) else Ok(b.(timeseries := b.timeseries + [x.value]));
    } else {
      var x := Unmarshal(f.data, MetadataKinds, ApplyMetadata, EMPTY_METADATA);
      r := if x.Err? then Err(x.error) else Ok(b.(metadata := b.metadata + [x.value]));
    }
  }

  method UnmarshalWriteRequest(s: Bytes) returns (r: Result<WriteRequest, Error>)
    ensures r == DecodeWriteRequest(s)
  {
    var i: nat, m := 0, Msg(EMPTY_WRITE_REQUEST, []);
    ghost var rest := s;
    while i < |s|
      invariant i <= |s| && rest == s[i..]
      invariant Decode(rest, WriteRequestKinds, ApplyWriteRequest, m) == DecodeWriteRequest(s)
      decreases |s| - i
    {
      var f := ReadFieldAt(s, i, WriteRequestKinds);
      DecodeError(rest, WriteRequestKinds, ApplyWriteRequest, m, f);
      if f.Bad? { return Err(f.error); }
      var b := WriteRequestField(m.body, f.value);
      var next := Absorb(m, f.value, b);
      FieldAbsorbed(rest, WriteRequestKinds, ApplyWriteRequest, m, f, next);
      if next.Err? { return next; }
      Slice(s, i, f.n);
      i, m, rest := i + f.n, next.value, rest[f.n..];
    }
    DecodeEnds(WriteRequestKinds, ApplyWriteRequest, m);
    return Ok(m);
  }

  lemma GoodIsInRange(m: WriteRequest)
    requires GoodWriteRequest(m)
    ensures AllInRange(m.body.timeseries)
  {
    var xs := m.body.timeseries;
    forall i | 0 <= i < |xs| ensures HistogramsInRange(xs[i].body.histograms) {
      var hs := xs[i].body.histograms;
      assert GoodTimeSeries(xs[i]);
      forall j | 0 <= j < |hs| ensures InRange(hs[j].body) {
        assert GoodHistogram(hs[j]);
      }
    }
  }

  /** What was marshalled is unmarshalled as it was, exactly when no singular float is a negative zero. */
  method Transmit(m: WriteRequest) returns (r: Result<WriteRequest, Error>)
    requires GoodWriteRequest(m) && |EncodeWriteRequest(m)| < TWO_63
    ensures r == Ok(PlainWriteRequest(m))
    ensures r == Ok(m) <==> NoNegativeZero(m)
  {
    GoodIsInRange(m);
    var data := MarshalWriteRequest(m);
    r := UnmarshalWriteRequest(data);
    WriteRequestRoundTrip(m);
    RoundTripExactly(m);
  }
}
