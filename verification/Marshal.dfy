/**
 Marshalling (prompb/types.pb.go, prompb/remote.pb.go): a message is written into a
 buffer of exactly its size, from the last field to the first. What has been
 written always ends where the message ends, and nothing else changes.
 */
module Marshal {
  import opened Wire
  import opened Messages

  /** `z` stands just before `end`, from `i` on; the rest is as it was. */
  ghost predicate Filled(s: Bytes, was: Bytes, end: nat, i: nat, z: Bytes) {
    i + |z| == end <= |was| && s == was[..i] + z + was[end..]
  }

  lemma FilledSlices(s: Bytes, was: Bytes, end: nat, i: nat, z: Bytes)
    requires Filled(s, was, end, i, z)
    ensures |s| == |was| && s[..i] == was[..i] && s[i..] == z + was[end..]
  {
  }

  /** Writing `y` before `z`. */
  lemma FilledMore(s: Bytes, was: Bytes, end: nat, i: nat, z: Bytes, s': Bytes, k: nat, y: Bytes)
    requires Filled(s, was, end, i, z) && Filled(s', s, i, k, y)
    ensures Filled(s', was, end, k, y + z)
  {
    FilledSlices(s, was, end, i, z);
    assert s[..k] == was[..k] by {
      assert s[..k] == s[..i][..k];
      assert was[..k] == was[..i][..k];
    }
    Assoc(was[..k] + y, z, was[end..]);
    Assoc(was[..k], y, z);
  }

  /** copy: the bytes of `x` just before `i`. */
  method PutRaw(a: array<Byte>, i: nat, x: Bytes) returns (k: nat)
    requires |x| <= i <= a.Length
    modifies a
    ensures Filled(a[..], old(a[..]), i, k, x)
  {
    k := i - |x|;
    forall j | 0 <= j < |x| {
      a[k + j] := x[j];
    }
  }

  method PutByte(a: array<Byte>, i: nat, b: Byte) returns (k: nat)
    requires 0 < i <= a.Length
    modifies a
    ensures Filled(a[..], old(a[..]), i, k, [b])
  {
    k := i - 1;
    a[k] := b;
  }

  /** The bytes of `done` stand from `base` on; the rest is as it was. */
  ghost predicate Forward(s: Bytes, was: Bytes, base: nat, done: Bytes) {
    base + |done| <= |was| && s == was[..base] + done + was[base + |done|..]
  }

  lemma ForwardMore(s: Bytes, was: Bytes, base: nat, done: Bytes, b: Byte)
    requires Forward(s, was, base, done) && base + |done| < |was|
    ensures Forward(s[base + |done| := b], was, base, done + [b])
  {
    var o := base + |done|;
    assert was[o..] == [was[o]] + was[o + 1..];
    assert s[o := b] == was[..base] + (done + [b]) + was[o + 1..];
  }

  method PutForward(a: array<Byte>, o: nat, b: Byte, ghost was: Bytes, ghost base: nat, ghost done: Bytes)
    returns (next: nat, ghost done': Bytes)
    requires Forward(a[..], was, base, done) && o == base + |done| < a.Length == |was|
    modifies a
    ensures done' == done + [b] && next == base + |done'| && Forward(a[..], was, base, done')
  {
    ForwardMore(a[..], was, base, done, b);
    a[o] := b;
    next, done' := o + 1, done + [b];
  }

  /** What is left to write of a varint. */
  ghost predicate Remaining(v: nat, done: Bytes, w: nat) {
    done + Varint(w) == Varint(v)
  }

  lemma RemainingStep(v: nat, done: Bytes, w: nat)
    requires Remaining(v, done, w)
    ensures w >= 128 ==> Remaining(v, done + [w % 128 + 128], w / 128)
    ensures w < 128 ==> done + [w] == Varint(v)
    ensures |done| < |Varint(v)|
  {
    if w >= 128 { Assoc(done, [w % 128 + 128], Varint(w / 128)); }
  }

  /** encodeVarintTypes and encodeVarintRemote: the place is made first, then the bytes are written forward. */
  method PutVarint(a: array<Byte>, offset: nat, v: nat) returns (base: nat)
    requires |Varint(v)| <= offset <= a.Length
    modifies a
    ensures Filled(a[..], old(a[..]), offset, base, Varint(v))
  {
    SovIsLength(v);
    base := offset - Sov(v);
    var o, w := base, v;
    ghost var was, done: Bytes := a[..], [];
    while w >= 128
      invariant o == base + |done| && Forward(a[..], was, base, done)
      invariant Remaining(v, done, w)
    {
      RemainingStep(v, done, w);
      o, done := PutForward(a, o, w % 128 + 128, was, base, done);
      w := w / 128;
    }
    RemainingStep(v, done, w);
    o, done := PutForward(a, o, w, was, base, done);
  }

  // ---------------------------------------------------------------- fields

  /** A message being written: it ends at `end`, `fs` has been written and `post` after it. */
  datatype Job = Job(was: Bytes, end: nat, fs: seq<Field>, post: Bytes) {
    function Done(): Bytes {
      EncodeFields(fs, post)
    }

    ghost predicate At(s: Bytes, i: nat) {
      Filled(s, was, end, i, Done())
    }

    predicate Room() {
      |Done()| <= end
    }
  }

  lemma {:induction false} DoneFront(j: Job, f: Field)
    ensures j.(fs := [f] + j.fs).Done() == EncodeField(f) + j.Done()
  {
    assert ([f] + j.fs)[1..] == j.fs;
  }

  lemma TwoBytes(key: nat)
    requires key < 0x4000
    ensures Varint(key) == if key < 128 then [key] else [key % 128 + 128] + [key / 128]
  {
  }

  /** Tags are constants of one or two bytes. */
  method PutTag(a: array<Byte>, i: nat, key: nat) returns (k: nat)
    requires key < 0x4000 && |Varint(key)| <= i <= a.Length
    modifies a
    ensures Filled(a[..], old(a[..]), i, k, Varint(key))
  {
    TwoBytes(key);
    if key < 128 {
      k := PutByte(a, i, key);
    } else {
      var k' := PutByte(a, i, key / 128);
      ghost var s := a[..];
      k := PutByte(a, k', key % 128 + 128);
      FilledMore(s, old(a[..]), i, k', [key / 128], a[..], k, [key % 128 + 128]);
    }
  }

  lemma FieldParts(j: Job, f: Field)
    requires !f.UnknownField?
    ensures j.(fs := [f] + j.fs).Done() == Varint(8 * f.num + WireType(f)) + (Body(f) + j.Done())
  {
    DoneFront(j, f);
    Assoc(Tag(f.num, WireType(f)), Body(f), j.Done());
  }

  /** The tag of a field whose body has been written. */
  method PutKey(a: array<Byte>, i: nat, key: nat, ghost f: Field, ghost j: Job) returns (k: nat)
    requires !f.UnknownField? && key == 8 * f.num + WireType(f) < 0x4000
    requires Filled(a[..], j.was, j.end, i, Body(f) + j.Done()) && j.(fs := [f] + j.fs).Room() && j.end <= a.Length
    modifies a
    ensures j.(fs := [f] + j.fs).At(a[..], k)
  {
    FieldParts(j, f);
    k := PutTag(a, i, key);
    FilledMore(old(a[..]), j.was, j.end, i, Body(f) + j.Done(), a[..], k, Varint(key));
  }

  method PutVarintField(a: array<Byte>, i: nat, key: nat, v: nat, ghost num: nat, ghost j: Job) returns (k: nat)
    requires key == 8 * num < 0x4000 && j.At(a[..], i) && j.(fs := OptVarint(num, v, j.fs)).Room() && j.end <= a.Length
    modifies a
    ensures j.(fs := OptVarint(num, v, j.fs)).At(a[..], k)
  {
    if v != 0 {
      ghost var s, f := a[..], VarintField(num, v);
      DoneFront(j, f);
      k := PutVarint(a, i, v);
      FilledMore(s, j.was, j.end, i, j.Done(), a[..], k, Varint(v));
      k := PutKey(a, k, key, f, j);
    } else {
      k := i;
    }
  }

  method PutFloatField(a: array<Byte>, i: nat, key: nat, bits: nat, ghost num: nat, ghost j: Job) returns (k: nat)
    requires key == 8 * num + 1 < 0x4000 && j.At(a[..], i) && j.(fs := OptFloat(num, bits, j.fs)).Room()
    requires j.end <= a.Length
    modifies a
    ensures j.(fs := OptFloat(num, bits, j.fs)).At(a[..], k)
  {
    if FloatIsZero(bits) {
      k := i;
    } else {
      k := PutFixed(a, i, key, bits, num, j);
    }
  }

  method PutFixed(a: array<Byte>, i: nat, key: nat, bits: nat, ghost num: nat, ghost j: Job) returns (k: nat)
    requires key == 8 * num + 1 < 0x4000 && j.At(a[..], i)
    requires j.(fs := [FixedField(num, bits)] + j.fs).Room() && j.end <= a.Length
    modifies a
    ensures j.(fs := [FixedField(num, bits)] + j.fs).At(a[..], k)
  {
    ghost var s, f := a[..], FixedField(num, bits);
    FieldParts(j, f);
    k := PutRaw(a, i, LittleEndian(bits, 8));
    FilledMore(s, j.was, j.end, i, j.Done(), a[..], k, LittleEndian(bits, 8));
    k := PutKey(a, k, key, f, j);
  }

  lemma DelimitedParts(data: Bytes, z: Bytes)
    ensures Varint(|data|) + (data + z) == Delimited(data) + z
  {
    Assoc(Varint(|data|), data, z);
  }

  /** The length and the tag of a record that has been written. */
  method PutHead(a: array<Byte>, i: nat, key: nat, size: nat, ghost f: Field, ghost data: Bytes, ghost j: Job)
    returns (k: nat)
    requires !f.UnknownField? && Body(f) == Delimited(data) && size == |data| && key == 8 * f.num + 2 < 0x4000
    requires Filled(a[..], j.was, j.end, i, data + j.Done()) && j.(fs := [f] + j.fs).Room() && j.end <= a.Length
    requires WireType(f) == 2
    modifies a
    ensures j.(fs := [f] + j.fs).At(a[..], k)
  {
    FieldParts(j, f);
    DelimitedParts(data, j.Done());
    var k' := PutVarint(a, i, size);
    FilledMore(old(a[..]), j.was, j.end, i, data + j.Done(), a[..], k', Varint(size));
    k := PutKey(a, k', key, f, j);
  }

  /** A record whose `size` bytes have been written before `i`. */
  method PutRecord(a: array<Byte>, i: nat, key: nat, size: nat, ghost num: nat, ghost data: Bytes, ghost s: Bytes,
                   ghost j: Job)
    returns (k: nat)
    requires key == 8 * num + 2 < 0x4000 && size == |data| <= i && j.At(s, i) && Filled(a[..], s, i, i - size, data)
    requires j.(fs := [BytesField(num, data)] + j.fs).Room() && j.end <= a.Length
    modifies a
    ensures j.(fs := [BytesField(num, data)] + j.fs).At(a[..], k)
  {
    FilledMore(s, j.was, j.end, i, j.Done(), a[..], i - size, data);
    k := PutHead(a, i - size, key, size, BytesField(num, data), data, j);
  }

  method PutBytesField(a: array<Byte>, i: nat, key: nat, data: Bytes, ghost num: nat, ghost j: Job) returns (k: nat)
    requires key == 8 * num + 2 < 0x4000 && j.At(a[..], i) && j.(fs := OptBytes(num, data, j.fs)).Room()
    requires j.end <= a.Length
    modifies a
    ensures j.(fs := OptBytes(num, data, j.fs)).At(a[..], k)
  {
    if |data| > 0 {
      ghost var f := BytesField(num, data);
      FieldParts(j, f);
      var k' := PutRaw(a, i, data);
      FilledMore(old(a[..]), j.was, j.end, i, j.Done(), a[..], k', data);
      k := PutHead(a, k', key, |data|, f, data, j);
    } else {
      k := i;
    }
  }

  /** Packed floats, from the last to the first. */
  method PutFixeds(a: array<Byte>, i: nat, vs: seq<nat>, ghost was: Bytes, ghost end: nat, ghost z: Bytes)
    returns (k: nat)
    requires Filled(a[..], was, end, i, z) && 8 * |vs| <= i && end <= a.Length
    modifies a
    ensures Filled(a[..], was, end, k, Fixeds(vs) + z)
  {
    k := i;
    var n := |vs|;
    while n > 0
      invariant 0 <= n <= |vs| && Filled(a[..], was, end, k, FixedsBefore(vs[n..], z))
    {
      n := n - 1;
      k := PutFixedBefore(a, k, vs[n], vs[n + 1..], was, end, z);
      assert [vs[n]] + vs[n + 1..] == vs[n..];
    }
    FixedsAppend(vs, [], z);
    NoneMore(z);
    assert vs[0..] == vs;
  }

  method PutFixedBefore(a: array<Byte>, i: nat, v: nat, ghost vs: seq<nat>, ghost was: Bytes, ghost end: nat,
                        ghost z: Bytes)
    returns (k: nat)
    requires Filled(a[..], was, end, i, FixedsBefore(vs, z)) && 8 <= i && end <= a.Length
    modifies a
    ensures Filled(a[..], was, end, k, FixedsBefore([v] + vs, z))
  {
    k := PutRaw(a, i, LittleEndian(v, 8));
    FilledMore(old(a[..]), was, end, i, FixedsBefore(vs, z), a[..], k, LittleEndian(v, 8));
    assert ([v] + vs)[1..] == vs;
  }

  method PutFixedsField(a: array<Byte>, i: nat, key: nat, vs: seq<nat>, ghost num: nat, ghost j: Job) returns (k: nat)
    requires key == 8 * num + 2 < 0x4000 && j.At(a[..], i) && j.(fs := OptFixeds(num, vs, j.fs)).Room()
    requires j.end <= a.Length
    modifies a
    ensures j.(fs := OptFixeds(num, vs, j.fs)).At(a[..], k)
  {
    if |vs| > 0 {
      ghost var f := FixedsField(num, vs);
      FieldParts(j, f);
      var k' := PutFixeds(a, i, vs, j.was, j.end, j.Done());
      k := PutHead(a, k', key, 8 * |vs|, f, Fixeds(vs), j);
    } else {
      k := i;
    }
  }

  /** A varint from `o` on. */
  method AppendVarint(b: array<Byte>, o: nat, v: nat) returns (o': nat)
    requires o + |Varint(v)| <= b.Length
    modifies b
    ensures o' == o + |Varint(v)| && b[..o'] == old(b[..o]) + Varint(v)
  {
    o' := o;
    var w := v;
    ghost var was, done: Bytes := b[..], [];
    while w >= 128
      invariant o' == o + |done| && Forward(b[..], was, o, done)
      invariant Remaining(v, done, w)
    {
      RemainingStep(v, done, w);
      o', done := PutForward(b, o', w % 128 + 128, was, o, done);
      w := w / 128;
    }
    RemainingStep(v, done, w);
    o', done := PutForward(b, o', w, was, o, done);
  }

  /** What is left to pack. */
  ghost predicate Unpacked(vs: seq<nat>, k: nat, done: Bytes) {
    k <= |vs| && done + Varints(vs[k..]) == Varints(vs)
  }

  lemma {:induction false} UnpackedStep(vs: seq<nat>, k: nat, done: Bytes)
    requires Unpacked(vs, k, done) && k < |vs|
    ensures Unpacked(vs, k + 1, done + Varint(vs[k]))
  {
    assert vs[k..][1..] == vs[k + 1..];
    Assoc(done, Varint(vs[k]), Varints(vs[k + 1..]));
  }

  lemma {:induction false} NoMoreThanTen(v: nat)
    requires v < TWO_64
    ensures |Varint(v)| <= 10
  {
    TenBytes();
    RawRoundTrip(v, 10, []);
  }

  /** Packed zigzag varints, in a buffer with ten bytes for each. */
  method PackDeltas(deltas: seq<int>) returns (b: array<Byte>, n: nat)
    requires Int64s(deltas)
    ensures fresh(b) && n <= b.Length && b[..n] == Varints(Map(ZigZag, deltas))
  {
    b := new Byte[10 * |deltas|];
    n := 0;
    ghost var vs := Map(ZigZag, deltas);
    assert vs[0..] == vs;
    for k := 0 to |deltas|
      invariant n <= 10 * k && Unpacked(vs, k, b[..n])
    {
      var x := ZigZag(deltas[k]);
      ZigZagRoundTrip(deltas[k]);
      NoMoreThanTen(x);
      UnpackedStep(vs, k, b[..n]);
      n := AppendVarint(b, n, x);
    }
    NoneMore(b[..n]);
  }

  method PutDeltasField(a: array<Byte>, i: nat, key: nat, deltas: seq<int>, ghost num: nat, ghost j: Job)
    returns (k: nat)
    requires key == 8 * num + 2 < 0x4000 && Int64s(deltas) && j.At(a[..], i)
    requires j.(fs := OptVarints(num, Map(ZigZag, deltas), j.fs)).Room() && j.end <= a.Length
    modifies a
    ensures j.(fs := OptVarints(num, Map(ZigZag, deltas), j.fs)).At(a[..], k)
  {
    if |deltas| > 0 {
      ghost var vs := Map(ZigZag, deltas);
      ghost var f := VarintsField(num, vs);
      FieldParts(j, f);
      var b, n := PackDeltas(deltas);
      var k' := PutRaw(a, i, b[..n]);
      FilledMore(old(a[..]), j.was, j.end, i, j.Done(), a[..], k', Varints(vs));
      k := PutHead(a, k', key, n, f, Varints(vs), j);
    } else {
      k := i;
    }
  }

  /** The oneofs of a histogram. */
  method PutCount(a: array<Byte>, i: nat, intKey: nat, floatKey: nat, c: Count, ghost intNum: nat, ghost floatNum: nat,
                  ghost j: Job)
    returns (k: nat)
    requires intKey == 8 * intNum < 0x4000 && floatKey == 8 * floatNum + 1 < 0x4000 && j.At(a[..], i)
    requires j.(fs := CountFields(c, intNum, floatNum, j.fs)).Room() && j.end <= a.Length
    modifies a
    ensures j.(fs := CountFields(c, intNum, floatNum, j.fs)).At(a[..], k)
  {
    match c
    case NoCount => k := i;
    case CountFloat(bits) => k := PutFixed(a, i, floatKey, bits, floatNum, j);
    case CountInt(n) =>
      ghost var f := VarintField(intNum, n);
      FieldParts(j, f);
      var k' := PutVarint(a, i, n);
      FilledMore(old(a[..]), j.was, j.end, i, j.Done(), a[..], k', Varint(n));
      k := PutKey(a, k', intKey, f, j);
  }

  // ---------------------------------------------------------------- room

  lemma {:induction false} FieldRoom(j: Job, f: Field)
    requires j.(fs := [f] + j.fs).Room()
    ensures j.Room()
  {
    DoneFront(j, f);
  }

  lemma {:induction false} RecordRoom(j: Job, num: nat, data: Bytes)
    requires j.(fs := [BytesField(num, data)] + j.fs).Room()
    ensures |data| + |j.Done()| <= j.end
  {
    FieldParts(j, BytesField(num, data));
  }

  lemma {:induction false} VarintRoom(j: Job, num: nat, v: nat)
    requires j.(fs := OptVarint(num, v, j.fs)).Room()
    ensures j.Room()
  {
    if v != 0 { FieldRoom(j, VarintField(num, v)); }
  }

  lemma {:induction false} FloatRoom(j: Job, num: nat, bits: nat)
    requires j.(fs := OptFloat(num, bits, j.fs)).Room()
    ensures j.Room()
  {
    if !FloatIsZero(bits) { FieldRoom(j, FixedField(num, bits)); }
  }

  lemma {:induction false} BytesRoom(j: Job, num: nat, data: Bytes)
    requires j.(fs := OptBytes(num, data, j.fs)).Room()
    ensures j.Room()
  {
    if data != [] { FieldRoom(j, BytesField(num, data)); }
  }

  lemma {:induction false} RepeatedRoom<X>(j: Job, num: nat, xs: seq<X>, enc: X -> Bytes, n: nat)
    requires j.(fs := Repeated(num, xs, enc, j.fs)).Room() && n <= |xs|
    ensures j.(fs := Repeated(num, xs[n..], enc, j.fs)).Room()
    decreases |xs|
  {
    if n == 0 {
      assert xs[0..] == xs;
    } else {
      FieldRoom(j.(fs := Repeated(num, xs[1..], enc, j.fs)), BytesField(num, enc(xs[0])));
      RepeatedRoom(j, num, xs[1..], enc, n - 1);
      assert xs[1..][n - 1..] == xs[n..];
    }
  }

  /** The job when the elements from `n` on have been written. */
  ghost function From<X>(j: Job, num: nat, xs: seq<X>, enc: X -> Bytes, n: nat): Job
    requires n <= |xs|
  {
    j.(fs := Repeated(num, xs[n..], enc, j.fs))
  }

  lemma {:induction false} FromEnds<X>(j: Job, num: nat, xs: seq<X>, enc: X -> Bytes)
    ensures From(j, num, xs, enc, |xs|) == j
    ensures From(j, num, xs, enc, 0) == j.(fs := Repeated(num, xs, enc, j.fs))
  {
    assert xs[0..] == xs;
  }

  /** There is room for the next element. */
  lemma {:induction false} FromStep<X>(j: Job, num: nat, xs: seq<X>, enc: X -> Bytes, n: nat)
    requires j.(fs := Repeated(num, xs, enc, j.fs)).Room() && n < |xs|
    ensures var j' := From(j, num, xs, enc, n + 1);
            && From(j, num, xs, enc, n) == j'.(fs := [BytesField(num, enc(xs[n]))] + j'.fs)
            && j'.(fs := [BytesField(num, enc(xs[n]))] + j'.fs).Room()
            && |enc(xs[n])| + |j'.Done()| <= j.end
  {
    RepeatedRoom(j, num, xs, enc, n);
    assert xs[n..][1..] == xs[n + 1..];
    RecordRoom(From(j, num, xs, enc, n + 1), num, enc(xs[n]));
  }

  /** The elements from `n` on have been written, down to `i`. */
  ghost predicate Reached<X>(s: Bytes, i: nat, j: Job, num: nat, xs: seq<X>, enc: X -> Bytes, n: nat) {
    n <= |xs| && From(j, num, xs, enc, n).At(s, i)
  }

  // ---------------------------------------------------------------- messages

  method PutLabel(a: array<Byte>, end: nat, m: Label) returns (size: nat)
    requires |EncodeLabel(m)| <= end <= a.Length
    modifies a
    ensures size == |EncodeLabel(m)| && Filled(a[..], old(a[..]), end, end - size, EncodeLabel(m))
  {
    ghost var j := Job(a[..], end, [], m.unrecognized);
    ghost var j' := j.(fs := OptBytes(2, m.body.value, []));
    BytesRoom(j', 1, m.body.name);
    BytesRoom(j, 2, m.body.value);
    var i := PutRaw(a, end, m.unrecognized);
    i := PutBytesField(a, i, 0x12, m.body.value, 2, j);
    i := PutBytesField(a, i, 0xa, m.body.name, 1, j');
    size := end - i;
  }

  method PutLabelRecord(a: array<Byte>, i: nat, key: nat, xs: seq<Label>, n: nat, ghost num: nat, ghost j: Job)
    returns (k: nat)
    requires key == 8 * num + 2 < 0x4000 && n < |xs| && Reached(a[..], i, j, num, xs, EncodeLabel, n + 1)
    requires j.(fs := Repeated(num, xs, EncodeLabel, j.fs)).Room() && j.end <= a.Length
    modifies a
    ensures Reached(a[..], k, j, num, xs, EncodeLabel, n)
  {
    FromStep(j, num, xs, EncodeLabel, n);
    ghost var j' := From(j, num, xs, EncodeLabel, n + 1);
    var size := PutLabel(a, i, xs[n]);
    k := PutRecord(a, i, key, size, num, EncodeLabel(xs[n]), old(a[..]), j');
  }

  method PutLabels(a: array<Byte>, i: nat, key: nat, xs: seq<Label>, ghost num: nat, ghost j: Job) returns (k: nat)
    requires key == 8 * num + 2 < 0x4000 && j.At(a[..], i)
    requires j.(fs := Repeated(num, xs, EncodeLabel, j.fs)).Room() && j.end <= a.Length
    modifies a
    ensures j.(fs := Repeated(num, xs, EncodeLabel, j.fs)).At(a[..], k)
  {
    k := i;
    FromEnds(j, num, xs, EncodeLabel);
    for n := |xs| downto 0
      invariant Reached(a[..], k, j, num, xs, EncodeLabel, n)
    {
      k := PutLabelRecord(a, k, key, xs, n, num, j);
    }
  }

  method PutSample(a: array<Byte>, end: nat, m: Sample) returns (size: nat)
    requires |EncodeSample(m)| <= end <= a.Length
    modifies a
    ensures size == |EncodeSample(m)| && Filled(a[..], old(a[..]), end, end - size, EncodeSample(m))
  {
    ghost var j := Job(a[..], end, [], m.unrecognized);
    ghost var j' := j.(fs := OptVarint(2, Unsigned(m.body.timestamp), []));
    FloatRoom(j', 1, m.body.value);
    VarintRoom(j, 2, Unsigned(m.body.timestamp));
    var i := PutRaw(a, end, m.unrecognized);
    i := PutVarintField(a, i, 0x10, Unsigned(m.body.timestamp), 2, j);
    i := PutFloatField(a, i, 0x9, m.body.value, 1, j');
    size := end - i;
  }

  method PutSampleRecord(a: array<Byte>, i: nat, key: nat, xs: seq<Sample>, n: nat, ghost num: nat, ghost j: Job)
    returns (k: nat)
    requires key == 8 * num + 2 < 0x4000 && n < |xs| && Reached(a[..], i, j, num, xs, EncodeSample, n + 1)
    requires j.(fs := Repeated(num, xs, EncodeSample, j.fs)).Room() && j.end <= a.Length
    modifies a
    ensures Reached(a[..], k, j, num, xs, EncodeSample, n)
  {
    FromStep(j, num, xs, EncodeSample, n);
    ghost var j' := From(j, num, xs, EncodeSample, n + 1);
    var size := PutSample(a, i, xs[n]);
    k := PutRecord(a, i, key, size, num, EncodeSample(xs[n]), old(a[..]), j');
  }

  method PutSamples(a: array<Byte>, i: nat, key: nat, xs: seq<Sample>, ghost num: nat, ghost j: Job) returns (k: nat)
    requires key == 8 * num + 2 < 0x4000 && j.At(a[..], i)
    requires j.(fs := Repeated(num, xs, EncodeSample, j.fs)).Room() && j.end <= a.Length
    modifies a
    ensures j.(fs := Repeated(num, xs, EncodeSample, j.fs)).At(a[..], k)
  {
    k := i;
    FromEnds(j, num, xs, EncodeSample);
    for n := |xs| downto 0
      invariant Reached(a[..], k, j, num, xs, EncodeSample, n)
    {
      k := PutSampleRecord(a, k, key, xs, n, num, j);
    }
  }

  method PutExemplar(a: array<Byte>, end: nat, m: Exemplar) returns (size: nat)
    requires |EncodeExemplar(m)| <= end <= a.Length
    modifies a
    ensures size == |EncodeExemplar(m)| && Filled(a[..], old(a[..]), end, end - size, EncodeExemplar(m))
  {
    ghost var j := Job(a[..], end, [], m.unrecognized);
    ghost var j1 := j.(fs := OptVarint(3, Unsigned(m.body.timestamp), []));
    ghost var j2 := j.(fs := OptFloat(2, m.body.value, j1.fs));
    RepeatedRoom(j2, 1, m.body.labels, EncodeLabel, |m.body.labels|);
    FloatRoom(j1, 2, m.body.value);
    VarintRoom(j, 3, Unsigned(m.body.timestamp));
    var i := PutRaw(a, end, m.unrecognized);
    i := PutVarintField(a, i, 0x18, Unsigned(m.body.timestamp), 3, j);
    i := PutFloatField(a, i, 0x11, m.body.value, 2, j1);
    i := PutLabels(a, i, 0xa, m.body.labels, 1, j2);
    size := end - i;
  }

  method PutExemplarRecord(a: array<Byte>, i: nat, key: nat, xs: seq<Exemplar>, n: nat, ghost num: nat, ghost j: Job)
    returns (k: nat)
    requires key == 8 * num + 2 < 0x4000 && n < |xs| && Reached(a[..], i, j, num, xs, EncodeExemplar, n + 1)
    requires j.(fs := Repeated(num, xs, EncodeExemplar, j.fs)).Room() && j.end <= a.Length
    modifies a
    ensures Reached(a[..], k, j, num, xs, EncodeExemplar, n)
  {
    FromStep(j, num, xs, EncodeExemplar, n);
    ghost var j' := From(j, num, xs, EncodeExemplar, n + 1);
    var size := PutExemplar(a, i, xs[n]);
    k := PutRecord(a, i, key, size, num, EncodeExemplar(xs[n]), old(a[..]), j');
  }

  method PutExemplars(a: array<Byte>, i: nat, key: nat, xs: seq<Exemplar>, ghost num: nat, ghost j: Job)
    returns (k: nat)
    requires key == 8 * num + 2 < 0x4000 && j.At(a[..], i)
    requires j.(fs := Repeated(num, xs, EncodeExemplar, j.fs)).Room() && j.end <= a.Length
    modifies a
    ensures j.(fs := Repeated(num, xs, EncodeExemplar, j.fs)).At(a[..], k)
  {
    k := i;
    FromEnds(j, num, xs, EncodeExemplar);
    for n := |xs| downto 0
      invariant Reached(a[..], k, j, num, xs, EncodeExemplar, n)
    {
      k := PutExemplarRecord(a, k, key, xs, n, num, j);
    }
  }

  method PutBucketSpan(a: array<Byte>, end: nat, m: BucketSpan) returns (size: nat)
    requires |EncodeBucketSpan(m)| <= end <= a.Length
    modifies a
    ensures size == |EncodeBucketSpan(m)| && Filled(a[..], old(a[..]), end, end - size, EncodeBucketSpan(m))
  {
    ghost var j := Job(a[..], end, [], m.unrecognized);
    ghost var j' := j.(fs := OptVarint(2, m.body.length, []));
    VarintRoom(j', 1, ZigZag(m.body.offset));
    VarintRoom(j, 2, m.body.length);
    var i := PutRaw(a, end, m.unrecognized);
    i := PutVarintField(a, i, 0x10, m.body.length, 2, j);
    i := PutVarintField(a, i, 0x8, ZigZag(m.body.offset), 1, j');
    size := end - i;
  }

  method PutBucketSpanRecord(a: array<Byte>, i: nat, key: nat, xs: seq<BucketSpan>, n: nat, ghost num: nat,
                             ghost j: Job)
    returns (k: nat)
    requires key == 8 * num + 2 < 0x4000 && n < |xs| && Reached(a[..], i, j, num, xs, EncodeBucketSpan, n + 1)
    requires j.(fs := Repeated(num, xs, EncodeBucketSpan, j.fs)).Room() && j.end <= a.Length
    modifies a
    ensures Reached(a[..], k, j, num, xs, EncodeBucketSpan, n)
  {
    FromStep(j, num, xs, EncodeBucketSpan, n);
    ghost var j' := From(j, num, xs, EncodeBucketSpan, n + 1);
    var size := PutBucketSpan(a, i, xs[n]);
    k := PutRecord(a, i, key, size, num, EncodeBucketSpan(xs[n]), old(a[..]), j');
  }

  method PutBucketSpans(a: array<Byte>, i: nat, key: nat, xs: seq<BucketSpan>, ghost num: nat, ghost j: Job)
    returns (k: nat)
    requires key == 8 * num + 2 < 0x4000 && j.At(a[..], i)
    requires j.(fs := Repeated(num, xs, EncodeBucketSpan, j.fs)).Room() && j.end <= a.Length
    modifies a
    ensures j.(fs := Repeated(num, xs, EncodeBucketSpan, j.fs)).At(a[..], k)
  {
    k := i;
    FromEnds(j, num, xs, EncodeBucketSpan);
    for n := |xs| downto 0
      invariant Reached(a[..], k, j, num, xs, EncodeBucketSpan, n)
    {
      k := PutBucketSpanRecord(a, k, key, xs, n, num, j);
    }
  }

  method PutMetadata(a: array<Byte>, end: nat, m: MetricMetadata) returns (size: nat)
    requires |EncodeMetadata(m)| <= end <= a.Length
    modifies a
    ensures size == |EncodeMetadata(m)| && Filled(a[..], old(a[..]), end, end - size, EncodeMetadata(m))
  {
    ghost var j := Job(a[..], end, [], m.unrecognized);
    ghost var j1 := j.(fs := OptBytes(5, m.body.unit, []));
    ghost var j2 := j.(fs := OptBytes(4, m.body.help, j1.fs));
    ghost var j3 := j.(fs := OptBytes(2, m.body.familyName, j2.fs));
    VarintRoom(j3, 1, Unsigned(m.body.typ));
    BytesRoom(j2, 2, m.body.familyName);
    BytesRoom(j1, 4, m.body.help);
    BytesRoom(j, 5, m.body.unit);
    var i := PutRaw(a, end, m.unrecognized);
    i := PutBytesField(a, i, 0x2a, m.body.unit, 5, j);
    i := PutBytesField(a, i, 0x22, m.body.help, 4, j1);
    i := PutBytesField(a, i, 0x12, m.body.familyName, 2, j2);
    i := PutVarintField(a, i, 0x8, Unsigned(m.body.typ), 1, j3);
    size := end - i;
  }

  method PutMetadataRecord(a: array<Byte>, i: nat, key: nat, xs: seq<MetricMetadata>, n: nat, ghost num: nat,
                           ghost j: Job)
    returns (k: nat)
    requires key == 8 * num + 2 < 0x4000 && n < |xs| && Reached(a[..], i, j, num, xs, EncodeMetadata, n + 1)
    requires j.(fs := Repeated(num, xs, EncodeMetadata, j.fs)).Room() && j.end <= a.Length
    modifies a
    ensures Reached(a[..], k, j, num, xs, EncodeMetadata, n)
  {
    FromStep(j, num, xs, EncodeMetadata, n);
    ghost var j' := From(j, num, xs, EncodeMetadata, n + 1);
    var size := PutMetadata(a, i, xs[n]);
    k := PutRecord(a, i, key, size, num, EncodeMetadata(xs[n]), old(a[..]), j');
  }

  method PutMetadataList(a: array<Byte>, i: nat, key: nat, xs: seq<MetricMetadata>, ghost num: nat, ghost j: Job)
    returns (k: nat)
    requires key == 8 * num + 2 < 0x4000 && j.At(a[..], i)
    requires j.(fs := Repeated(num, xs, EncodeMetadata, j.fs)).Room() && j.end <= a.Length
    modifies a
    ensures j.(fs := Repeated(num, xs, EncodeMetadata, j.fs)).At(a[..], k)
  {
    k := i;
    FromEnds(j, num, xs, EncodeMetadata);
    for n := |xs| downto 0
      invariant Reached(a[..], k, j, num, xs, EncodeMetadata, n)
    {
      k := PutMetadataRecord(a, k, key, xs, n, num, j);
    }
  }

  // Histogram, in the parts of its fields

  ghost predicate InRange(b: HistogramBody) {
    Int64s(b.negativeDeltas) && Int64s(b.positiveDeltas)
  }

  ghost predicate HistogramsInRange(xs: seq<Histogram>) {
    forall i | 0 <= i < |xs| :: InRange(xs[i].body)
  }

  ghost predicate AllInRange(xs: seq<TimeSeries>) {
    forall i | 0 <= i < |xs| :: HistogramsInRange(xs[i].body.histograms)
  }

  lemma {:induction false} FixedsRoom(j: Job, num: nat, vs: seq<nat>)
    requires j.(fs := OptFixeds(num, vs, j.fs)).Room()
    ensures j.Room()
  {
    if vs != [] { FieldRoom(j, FixedsField(num, vs)); }
  }

  lemma {:induction false} VarintsRoom(j: Job, num: nat, vs: seq<nat>)
    requires j.(fs := OptVarints(num, vs, j.fs)).Room()
    ensures j.Room()
  {
    if vs != [] { FieldRoom(j, VarintsField(num, vs)); }
  }

  lemma {:induction false} CountRoom(j: Job, c: Count, intNum: nat, floatNum: nat)
    requires j.(fs := CountFields(c, intNum, floatNum, j.fs)).Room()
    ensures j.Room()
  {
    match c
    case NoCount =>
    case CountInt(n) => FieldRoom(j, VarintField(intNum, n));
    case CountFloat(bits) => FieldRoom(j, FixedField(floatNum, bits));
  }

  method PutTrailer(a: array<Byte>, i: nat, b: HistogramBody, ghost j: Job) returns (k: nat)
    requires j.fs == [] && j.At(a[..], i) && j.(fs := TrailerFields(b)).Room() && j.end <= a.Length
    modifies a
    ensures j.(fs := TrailerFields(b)).At(a[..], k)
  {
    ghost var j1 := j.(fs := OptFixeds(16, b.customValues, []));
    ghost var j2 := j.(fs := OptVarint(15, Unsigned(b.timestamp), j1.fs));
    VarintRoom(j2, 14, Unsigned(b.resetHint));
    VarintRoom(j1, 15, Unsigned(b.timestamp));
    k := PutFixedsField(a, i, 0x82, b.customValues, 16, j);
    k := PutVarintField(a, k, 0x78, Unsigned(b.timestamp), 15, j1);
    k := PutVarintField(a, k, 0x70, Unsigned(b.resetHint), 14, j2);
  }

  ghost function WithFixeds(j: Job, num: nat, vs: seq<nat>): Job {
    j.(fs := OptFixeds(num, vs, j.fs))
  }

  ghost function WithVarints(j: Job, num: nat, vs: seq<nat>): Job {
    j.(fs := OptVarints(num, vs, j.fs))
  }

  /** The job before the spans are written. */
  ghost function BeforeSpans(j: Job, deltas: seq<int>, counts: seq<nat>, num: nat): Job {
    WithVarints(WithFixeds(j, num + 2, counts), num + 1, Map(ZigZag, deltas))
  }

  lemma {:induction false} BucketsRoom(j: Job, spans: seq<BucketSpan>, deltas: seq<int>, counts: seq<nat>, num: nat)
    requires j.(fs := BucketFields(spans, deltas, counts, num, j.fs)).Room()
    ensures BeforeSpans(j, deltas, counts, num).Room() && WithFixeds(j, num + 2, counts).Room() && j.Room()
  {
    RepeatedRoom(BeforeSpans(j, deltas, counts, num), num, spans, EncodeBucketSpan, |spans|);
    VarintsRoom(WithFixeds(j, num + 2, counts), num + 1, Map(ZigZag, deltas));
    FixedsRoom(j, num + 2, counts);
  }

  /** Spans, deltas and counts of one sign. */
  method PutBuckets(a: array<Byte>, i: nat, key: nat, spans: seq<BucketSpan>, deltas: seq<int>, counts: seq<nat>,
                    ghost num: nat, ghost j: Job)
    returns (k: nat)
    requires key == 8 * num + 2 < 0x1000 && Int64s(deltas) && j.At(a[..], i)
    requires j.(fs := BucketFields(spans, deltas, counts, num, j.fs)).Room() && j.end <= a.Length
    modifies a
    ensures j.(fs := BucketFields(spans, deltas, counts, num, j.fs)).At(a[..], k)
  {
    BucketsRoom(j, spans, deltas, counts, num);
    k := PutNumbers(a, i, key, deltas, counts, num, j);
    k := PutBucketSpans(a, k, key, spans, num, BeforeSpans(j, deltas, counts, num));
  }

  method PutNumbers(a: array<Byte>, i: nat, key: nat, deltas: seq<int>, counts: seq<nat>, ghost num: nat, ghost j: Job)
    returns (k: nat)
    requires key == 8 * num + 2 < 0x1000 && Int64s(deltas) && j.At(a[..], i)
    requires BeforeSpans(j, deltas, counts, num).Room() && WithFixeds(j, num + 2, counts).Room() && j.end <= a.Length
    modifies a
    ensures BeforeSpans(j, deltas, counts, num).At(a[..], k)
  {
    k := PutFixedsField(a, i, key + 16, counts, num + 2, j);
    k := PutDeltasField(a, k, key + 8, deltas, num + 1, WithFixeds(j, num + 2, counts));
  }

  /** Zero count, zero threshold, schema, sum and count. */
  method PutHistogramHead(a: array<Byte>, i: nat, b: HistogramBody, ghost j: Job) returns (k: nat)
    requires j.fs == NegativeFields(b) && j.At(a[..], i) && j.(fs := HistogramFields(b)).Room() && j.end <= a.Length
    modifies a
    ensures j.(fs := HistogramFields(b)).At(a[..], k)
  {
    ghost var j1 := j.(fs := CountFields(b.zeroCount, 6, 7, j.fs));
    ghost var j2 := j.(fs := OptFloat(5, b.zeroThreshold, j1.fs));
    ghost var j3 := j.(fs := OptVarint(4, ZigZag(b.schema), j2.fs));
    ghost var j4 := j.(fs := OptFloat(3, b.sum, j3.fs));
    CountRoom(j4, b.count, 1, 2);
    FloatRoom(j3, 3, b.sum);
    VarintRoom(j2, 4, ZigZag(b.schema));
    FloatRoom(j1, 5, b.zeroThreshold);
    k := PutCount(a, i, 0x30, 0x39, b.zeroCount, 6, 7, j);
    k := PutFloatField(a, k, 0x29, b.zeroThreshold, 5, j1);
    k := PutVarintField(a, k, 0x20, ZigZag(b.schema), 4, j2);
    k := PutFloatField(a, k, 0x19, b.sum, 3, j3);
    k := PutCount(a, k, 0x8, 0x11, b.count, 1, 2, j4);
  }

  lemma {:induction false} PositiveRoom(j: Job, b: HistogramBody)
    requires j.fs == TrailerFields(b) && j.(fs := PositiveFields(b)).Room()
    ensures j.Room()
  {
    BucketsRoom(j, b.positiveSpans, b.positiveDeltas, b.positiveCounts, 11);
  }

  lemma {:induction false} NegativeRoom(j: Job, b: HistogramBody)
    requires j.fs == PositiveFields(b) && j.(fs := NegativeFields(b)).Room()
    ensures j.Room()
  {
    BucketsRoom(j, b.negativeSpans, b.negativeDeltas, b.negativeCounts, 8);
  }

  lemma {:induction false} HistogramRoom(j: Job, b: HistogramBody)
    requires j.fs == [] && j.(fs := HistogramFields(b)).Room()
    ensures j.(fs := NegativeFields(b)).Room() && j.(fs := PositiveFields(b)).Room()
    ensures j.(fs := TrailerFields(b)).Room() && j.Room()
  {
    HeadFits(b, j.post);
    NegativeRoom(j.(fs := PositiveFields(b)), b);
    PositiveRoom(j.(fs := TrailerFields(b)), b);
  }

  method PutHistogram(a: array<Byte>, end: nat, m: Histogram) returns (size: nat)
    requires |EncodeHistogram(m)| <= end <= a.Length && InRange(m.body)
    modifies a
    ensures size == |EncodeHistogram(m)| && Filled(a[..], old(a[..]), end, end - size, EncodeHistogram(m))
  {
    ghost var j := Job(a[..], end, [], m.unrecognized);
    HistogramRoom(j, m.body);
    var i := PutRaw(a, end, m.unrecognized);
    i := PutTrailer(a, i, m.body, j);
    i := PutBuckets(a, i, 0x5a, m.body.positiveSpans, m.body.positiveDeltas, m.body.positiveCounts, 11,
                    j.(fs := TrailerFields(m.body)));
    i := PutBuckets(a, i, 0x42, m.body.negativeSpans, m.body.negativeDeltas, m.body.negativeCounts, 8,
                    j.(fs := PositiveFields(m.body)));
    i := PutHistogramHead(a, i, m.body, j.(fs := NegativeFields(m.body)));
    size := end - i;
  }

  method PutHistogramRecord(a: array<Byte>, i: nat, key: nat, xs: seq<Histogram>, n: nat, ghost num: nat, ghost j: Job)
    returns (k: nat)
    requires key == 8 * num + 2 < 0x4000 && n < |xs| && Reached(a[..], i, j, num, xs, EncodeHistogram, n + 1)
    requires HistogramsInRange(xs)
    requires j.(fs := Repeated(num, xs, EncodeHistogram, j.fs)).Room() && j.end <= a.Length
    modifies a
    ensures Reached(a[..], k, j, num, xs, EncodeHistogram, n)
  {
    FromStep(j, num, xs, EncodeHistogram, n);
    ghost var j' := From(j, num, xs, EncodeHistogram, n + 1);
    var size := PutHistogram(a, i, xs[n]);
    k := PutRecord(a, i, key, size, num, EncodeHistogram(xs[n]), old(a[..]), j');
  }

  method PutHistograms(a: array<Byte>, i: nat, key: nat, xs: seq<Histogram>, ghost num: nat, ghost j: Job)
    returns (k: nat)
    requires key == 8 * num + 2 < 0x4000 && j.At(a[..], i) && HistogramsInRange(xs)
    requires j.(fs := Repeated(num, xs, EncodeHistogram, j.fs)).Room() && j.end <= a.Length
    modifies a
    ensures j.(fs := Repeated(num, xs, EncodeHistogram, j.fs)).At(a[..], k)
  {
    k := i;
    FromEnds(j, num, xs, EncodeHistogram);
    for n := |xs| downto 0
      invariant Reached(a[..], k, j, num, xs, EncodeHistogram, n)
    {
      k := PutHistogramRecord(a, k, key, xs, n, num, j);
    }
  }

  method PutTimeSeries(a: array<Byte>, end: nat, m: TimeSeries) returns (size: nat)
    requires |EncodeTimeSeries(m)| <= end <= a.Length && HistogramsInRange(m.body.histograms)
    modifies a
    ensures size == |EncodeTimeSeries(m)| && Filled(a[..], old(a[..]), end, end - size, EncodeTimeSeries(m))
  {
    ghost var j := Job(a[..], end, [], m.unrecognized);
    ghost var j1 := j.(fs := Repeated(4, m.body.histograms, EncodeHistogram, []));
    ghost var j2 := j.(fs := Repeated(3, m.body.exemplars, EncodeExemplar, j1.fs));
    ghost var j3 := j.(fs := Repeated(2, m.body.samples, EncodeSample, j2.fs));
    RepeatedRoom(j3, 1, m.body.labels, EncodeLabel, |m.body.labels|);
    RepeatedRoom(j2, 2, m.body.samples, EncodeSample, |m.body.samples|);
    RepeatedRoom(j1, 3, m.body.exemplars, EncodeExemplar, |m.body.exemplars|);
    RepeatedRoom(j, 4, m.body.histograms, EncodeHistogram, |m.body.histograms|);
    var i := PutRaw(a, end, m.unrecognized);
    i := PutHistograms(a, i, 0x22, m.body.histograms, 4, j);
    i := PutExemplars(a, i, 0x1a, m.body.exemplars, 3, j1);
    i := PutSamples(a, i, 0x12, m.body.samples, 2, j2);
    i := PutLabels(a, i, 0xa, m.body.labels, 1, j3);
    size := end - i;
  }

  method PutTimeSeriesRecord(a: array<Byte>, i: nat, key: nat, xs: seq<TimeSeries>, n: nat, ghost num: nat,
                             ghost j: Job)
    returns (k: nat)
    requires key == 8 * num + 2 < 0x4000 && n < |xs| && Reached(a[..], i, j, num, xs, EncodeTimeSeries, n + 1)
    requires AllInRange(xs)
    requires j.(fs := Repeated(num, xs, EncodeTimeSeries, j.fs)).Room() && j.end <= a.Length
    modifies a
    ensures Reached(a[..], k, j, num, xs, EncodeTimeSeries, n)
  {
    FromStep(j, num, xs, EncodeTimeSeries, n);
    ghost var j' := From(j, num, xs, EncodeTimeSeries, n + 1);
    var size := PutTimeSeries(a, i, xs[n]);
    k := PutRecord(a, i, key, size, num, EncodeTimeSeries(xs[n]), old(a[..]), j');
  }

  method PutTimeSeriesList(a: array<Byte>, i: nat, key: nat, xs: seq<TimeSeries>, ghost num: nat, ghost j: Job)
    returns (k: nat)
    requires key == 8 * num + 2 < 0x4000 && j.At(a[..], i) && AllInRange(xs)
    requires j.(fs := Repeated(num, xs, EncodeTimeSeries, j.fs)).Room() && j.end <= a.Length
    modifies a
    ensures j.(fs := Repeated(num, xs, EncodeTimeSeries, j.fs)).At(a[..], k)
  {
    k := i;
    FromEnds(j, num, xs, EncodeTimeSeries);
    for n := |xs| downto 0
      invariant Reached(a[..], k, j, num, xs, EncodeTimeSeries, n)
    {
      k := PutTimeSeriesRecord(a, k, key, xs, n, num, j);
    }
  }

  method PutWriteRequest(a: array<Byte>, end: nat, m: WriteRequest) returns (size: nat)
    requires |EncodeWriteRequest(m)| <= end <= a.Length && AllInRange(m.body.timeseries)
    modifies a
    ensures size == |EncodeWriteRequest(m)| && Filled(a[..], old(a[..]), end, end - size, EncodeWriteRequest(m))
  {
    ghost var j := Job(a[..], end, [], m.unrecognized);
    ghost var j' := j.(fs := Repeated(3, m.body.metadata, EncodeMetadata, []));
    RepeatedRoom(j', 1, m.body.timeseries, EncodeTimeSeries, |m.body.timeseries|);
    RepeatedRoom(j, 3, m.body.metadata, EncodeMetadata, |m.body.metadata|);
    var i := PutRaw(a, end, m.unrecognized);
    i := PutMetadataList(a, i, 0x1a, m.body.metadata, 3, j);
    i := PutTimeSeriesList(a, i, 0xa, m.body.timeseries, 1, j');
    size := end - i;
  }
}
