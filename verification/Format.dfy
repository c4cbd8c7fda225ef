/**
 The bytes of a remote-write request, written out: for every message its fields
 in the order in which they stand, each with the tag that its number and wire
 type give (prompb/types.pb.go, prompb/remote.pb.go). A field that has its zero
 value is left out, and what a message has kept of fields it does not know stands
 at its end.
 */
module Format {
  import opened Wire
  import opened Messages

  // ---------------------------------------------------------------- numbers

  /** `v` shifted right by `i` groups of seven bits. */
  function Groups(v: nat, i: nat): nat
    decreases i
  {
    if i == 0 then v else Groups(v / 128, i - 1)
  }

  /** `v` shifted right by `i` bytes. */
  function Octets(v: nat, i: nat): nat
    decreases i
  {
    if i == 0 then v else Octets(v / 256, i - 1)
  }

  /** A varint has the groups of seven bits of its number, the lowest first, as many as are needed; every byte but the
      last has its high bit set. */
  lemma {:induction false} VarintBytes(v: nat, i: nat)
    requires i < |Varint(v)|
    ensures Varint(v)[i] == Groups(v, i) % 128 + if i < |Varint(v)| - 1 then 128 else 0
    ensures Groups(v, |Varint(v)|) == 0 && (|Varint(v)| > 1 ==> Groups(v, |Varint(v)| - 1) > 0)
  {
    if v >= 128 {
      VarintBytes(v / 128, if i == 0 then 0 else i - 1);
    } else {
      assert Groups(v, 1) == Groups(v / 128, 0);
    }
  }

  /** A fixed number has its bytes, the lowest first. */
  lemma {:induction false} FixedBytes(v: nat, n: nat, i: nat)
    requires i < n
    ensures LittleEndian(v, n)[i] == Octets(v, i) % 256
  {
    if i > 0 { FixedBytes(v / 256, n - 1, i - 1); }
  }

  // ---------------------------------------------------------------- fields

  /** The parts one after the other. */
  function Join(parts: seq<Bytes>): Bytes {
    if parts == [] then [] else parts[0] + Join(parts[1..])
  }

  lemma JoinFirst(part: Bytes, parts: seq<Bytes>)
    ensures Join([part] + parts) == part + Join(parts)
  {
    assert ([part] + parts)[1..] == parts;
  }

  function Text(tag: Bytes, data: Bytes): Bytes {
    if data == [] then [] else Join([tag, Varint(|data|), data])
  }

  function Double(tag: Bytes, bits: nat): Bytes {
    if bits == 0 || bits == TWO_63 then [] else Join([tag, LittleEndian(bits, 8)])
  }

  function Integer(tag: Bytes, v: nat): Bytes {
    if v == 0 then [] else Join([tag, Varint(v)])
  }

  /** A packed field of which the elements are written by `enc`. */
  function Packed<X>(tag: Bytes, xs: seq<X>, enc: X -> Bytes): Bytes {
    Text(tag, Join(Map(enc, xs)))
  }

  /** One record for each message. */
  function Records<X>(tag: Bytes, xs: seq<X>, enc: X -> Bytes): Bytes {
    if xs == [] then [] else Join([tag, Varint(|enc(xs[0])|), enc(xs[0]), Records(tag, xs[1..], enc)])
  }

  function Delta(n: int): Bytes {
    Varint(ZigZag(n))
  }

  function Float(bits: nat): Bytes {
    LittleEndian(bits, 8)
  }

  // Of a oneof the member that is set is written, even when it is zero.

  function OneOf(intTag: Bytes, floatTag: Bytes, c: Count): Bytes {
    match c
    case NoCount => []
    case CountInt(n) => Join([intTag, Varint(n)])
    case CountFloat(bits) => Join([floatTag, LittleEndian(bits, 8)])
  }

  lemma JoinTwo(a: Bytes, b: Bytes)
    ensures Join([a, b]) == a + b
  {
    JoinFirst(a, [b]);
    JoinFirst(b, []);
    assert [a] + [b] == [a, b];
  }

  lemma JoinThree(a: Bytes, b: Bytes, c: Bytes)
    ensures Join([a, b, c]) == a + (b + c)
  {
    JoinFirst(a, [b, c]);
    JoinTwo(b, c);
    assert [a] + [b, c] == [a, b, c];
  }

  /** A field that is written comes before those after it. */
  lemma FieldFirst(f: Field, fs: seq<Field>, post: Bytes)
    ensures EncodeFields([f] + fs, post) == EncodeField(f) + EncodeFields(fs, post)
  {
    assert ([f] + fs)[1..] == fs;
  }

  // The first of the fields of a message, and the fields after it.

  lemma TextFirst(num: nat, tag: Bytes, data: Bytes, fs: seq<Field>, post: Bytes)
    requires Tag(num, 2) == tag
    ensures EncodeFields(OptBytes(num, data, fs), post) == Text(tag, data) + EncodeFields(fs, post)
  {
    if data != [] {
      FieldFirst(BytesField(num, data), fs, post);
      JoinThree(tag, Varint(|data|), data);
    }
  }

  lemma DoubleFirst(num: nat, tag: Bytes, bits: nat, fs: seq<Field>, post: Bytes)
    requires Tag(num, 1) == tag
    ensures EncodeFields(OptFloat(num, bits, fs), post) == Double(tag, bits) + EncodeFields(fs, post)
  {
    if !FloatIsZero(bits) {
      FieldFirst(FixedField(num, bits), fs, post);
      JoinTwo(tag, LittleEndian(bits, 8));
    }
  }

  lemma IntegerFirst(num: nat, tag: Bytes, v: nat, fs: seq<Field>, post: Bytes)
    requires Tag(num, 0) == tag
    ensures EncodeFields(OptVarint(num, v, fs), post) == Integer(tag, v) + EncodeFields(fs, post)
  {
    if v != 0 {
      FieldFirst(VarintField(num, v), fs, post);
      JoinTwo(tag, Varint(v));
    }
  }

  lemma OneOfFirst(intNum: nat, floatNum: nat, intTag: Bytes, floatTag: Bytes, c: Count, fs: seq<Field>, post: Bytes)
    requires Tag(intNum, 0) == intTag && Tag(floatNum, 1) == floatTag
    ensures EncodeFields(CountFields(c, intNum, floatNum, fs), post) ==
            OneOf(intTag, floatTag, c) + EncodeFields(fs, post)
  {
    match c
    case NoCount =>
    case CountInt(n) =>
      FieldFirst(VarintField(intNum, n), fs, post);
      JoinTwo(intTag, Varint(n));
    case CountFloat(bits) =>
      FieldFirst(FixedField(floatNum, bits), fs, post);
      JoinTwo(floatTag, LittleEndian(bits, 8));
  }

  lemma Regroup(a: Bytes, b: Bytes, c: Bytes, d: Bytes, e: Bytes)
    ensures a + (b + c) + (d + e) == a + (b + (c + d)) + e
  {
    Assoc(a + (b + c), d, e);
    Assoc(a, b + c, d);
    Assoc(b, c, d);
  }

  lemma {:induction false} RecordsFirst<X>(num: nat, tag: Bytes, xs: seq<X>, enc: X -> Bytes, fs: seq<Field>,
                                           post: Bytes)
    requires Tag(num, 2) == tag
    ensures EncodeFields(Repeated(num, xs, enc, fs), post) == Records(tag, xs, enc) + EncodeFields(fs, post)
  {
    if xs != [] {
      var x, rest := enc(xs[0]), Records(tag, xs[1..], enc);
      RecordsFirst(num, tag, xs[1..], enc, fs, post);
      FieldFirst(BytesField(num, x), Repeated(num, xs[1..], enc, fs), post);
      JoinFirst(tag, [Varint(|x|), x, rest]);
      JoinThree(Varint(|x|), x, rest);
      assert [tag] + [Varint(|x|), x, rest] == [tag, Varint(|x|), x, rest];
      Regroup(tag, Varint(|x|), x, rest, EncodeFields(fs, post));
    }
  }

  lemma {:induction false} DeltasAreJoined(ns: seq<int>)
    ensures Varints(Map(ZigZag, ns)) == Join(Map(Delta, ns))
  {
    if ns != [] {
      DeltasAreJoined(ns[1..]);
      assert Map(ZigZag, ns)[1..] == Map(ZigZag, ns[1..]);
      assert Map(Delta, ns)[1..] == Map(Delta, ns[1..]);
    }
  }

  lemma {:induction false} FloatsAreJoined(vs: seq<nat>)
    ensures Fixeds(vs) == Join(Map(Float, vs))
  {
    if vs != [] {
      FloatsAreJoined(vs[1..]);
      assert Map(Float, vs)[1..] == Map(Float, vs[1..]);
    }
  }

  lemma DeltasFirst(num: nat, tag: Bytes, ns: seq<int>, fs: seq<Field>, post: Bytes)
    requires Tag(num, 2) == tag
    ensures EncodeFields(OptVarints(num, Map(ZigZag, ns), fs), post) ==
            Packed(tag, ns, Delta) + EncodeFields(fs, post)
  {
    DeltasAreJoined(ns);
    if ns != [] {
      var data := Varints(Map(ZigZag, ns));
      assert data != [];
      FieldFirst(VarintsField(num, Map(ZigZag, ns)), fs, post);
      JoinThree(tag, Varint(|data|), data);
    }
  }

  lemma FloatsFirst(num: nat, tag: Bytes, vs: seq<nat>, fs: seq<Field>, post: Bytes)
    requires Tag(num, 2) == tag
    ensures EncodeFields(OptFixeds(num, vs, fs), post) == Packed(tag, vs, Float) + EncodeFields(fs, post)
  {
    FloatsAreJoined(vs);
    if vs != [] {
      var data := Fixeds(vs);
      assert data != [];
      FieldFirst(FixedsField(num, vs), fs, post);
      JoinThree(tag, Varint(|data|), data);
    }
  }

  // ---------------------------------------------------------------- messages

  lemma LabelFormat(m: Label)
    ensures EncodeLabel(m) == Join([Text([0x0a], m.body.name), Text([0x12], m.body.value), m.unrecognized])
  {
    var b, post := m.body, m.unrecognized;
    TextFirst(1, [0x0a], b.name, OptBytes(2, b.value, []), post);
    TextFirst(2, [0x12], b.value, [], post);
    JoinThree(Text([0x0a], b.name), Text([0x12], b.value), post);
  }

  lemma SampleFormat(m: Sample)
    ensures EncodeSample(m) ==
            Join([Double([0x09], m.body.value), Integer([0x10], Unsigned(m.body.timestamp)), m.unrecognized])
  {
    var b, post := m.body, m.unrecognized;
    var t := Unsigned(b.timestamp);
    DoubleFirst(1, [0x09], b.value, OptVarint(2, t, []), post);
    IntegerFirst(2, [0x10], t, [], post);
    JoinThree(Double([0x09], b.value), Integer([0x10], t), post);
  }

  lemma BucketSpanFormat(m: BucketSpan)
    ensures EncodeBucketSpan(m) ==
            Join([Integer([0x08], ZigZag(m.body.offset)), Integer([0x10], m.body.length), m.unrecognized])
  {
    var b, post := m.body, m.unrecognized;
    IntegerFirst(1, [0x08], ZigZag(b.offset), OptVarint(2, b.length, []), post);
    IntegerFirst(2, [0x10], b.length, [], post);
    JoinThree(Integer([0x08], ZigZag(b.offset)), Integer([0x10], b.length), post);
  }

  lemma ExemplarFormat(m: Exemplar)
    ensures EncodeExemplar(m) ==
            Join([Records([0x0a], m.body.labels, EncodeLabel), Double([0x11], m.body.value),
                  Integer([0x18], Unsigned(m.body.timestamp)), m.unrecognized])
  {
    var b, post := m.body, m.unrecognized;
    var t := Unsigned(b.timestamp);
    var value, time := Double([0x11], b.value), Integer([0x18], t);
    RecordsFirst(1, [0x0a], b.labels, EncodeLabel, OptFloat(2, b.value, OptVarint(3, t, [])), post);
    DoubleFirst(2, [0x11], b.value, OptVarint(3, t, []), post);
    IntegerFirst(3, [0x18], t, [], post);
    JoinFour(Records([0x0a], b.labels, EncodeLabel), value, time, post);
  }

  lemma JoinFour(a: Bytes, b: Bytes, c: Bytes, d: Bytes)
    ensures Join([a, b, c, d]) == a + (b + (c + d))
  {
    JoinFirst(a, [b, c, d]);
    JoinThree(b, c, d);
    assert [a] + [b, c, d] == [a, b, c, d];
  }

  lemma JoinFive(a: Bytes, b: Bytes, c: Bytes, d: Bytes, e: Bytes)
    ensures Join([a, b, c, d, e]) == a + (b + (c + (d + e)))
  {
    JoinFirst(a, [b, c, d, e]);
    JoinFour(b, c, d, e);
    assert [a] + [b, c, d, e] == [a, b, c, d, e];
  }

  lemma MetadataFormat(m: MetricMetadata)
    ensures EncodeMetadata(m) ==
            Join([Integer([0x08], Unsigned(m.body.typ)), Text([0x12], m.body.familyName), Text([0x22], m.body.help),
                  Text([0x2a], m.body.unit), m.unrecognized])
  {
    var b, post := m.body, m.unrecognized;
    var unit := OptBytes(5, b.unit, []);
    var help := OptBytes(4, b.help, unit);
    IntegerFirst(1, [0x08], Unsigned(b.typ), OptBytes(2, b.familyName, help), post);
    TextFirst(2, [0x12], b.familyName, help, post);
    TextFirst(4, [0x22], b.help, unit, post);
    TextFirst(5, [0x2a], b.unit, [], post);
    JoinFive(Integer([0x08], Unsigned(b.typ)), Text([0x12], b.familyName), Text([0x22], b.help),
             Text([0x2a], b.unit), post);
  }

  lemma TimeSeriesFormat(m: TimeSeries)
    ensures EncodeTimeSeries(m) ==
            Join([Records([0x0a], m.body.labels, EncodeLabel), Records([0x12], m.body.samples, EncodeSample),
                  Records([0x1a], m.body.exemplars, EncodeExemplar),
                  Records([0x22], m.body.histograms, EncodeHistogram), m.unrecognized])
  {
    var b, post := m.body, m.unrecognized;
    var histograms := Repeated(4, b.histograms, EncodeHistogram, []);
    var exemplars := Repeated(3, b.exemplars, EncodeExemplar, histograms);
    var samples := Repeated(2, b.samples, EncodeSample, exemplars);
    RecordsFirst(1, [0x0a], b.labels, EncodeLabel, samples, post);
    RecordsFirst(2, [0x12], b.samples, EncodeSample, exemplars, post);
    RecordsFirst(3, [0x1a], b.exemplars, EncodeExemplar, histograms, post);
    RecordsFirst(4, [0x22], b.histograms, EncodeHistogram, [], post);
    JoinFive(Records([0x0a], b.labels, EncodeLabel), Records([0x12], b.samples, EncodeSample),
             Records([0x1a], b.exemplars, EncodeExemplar), Records([0x22], b.histograms, EncodeHistogram), post);
  }

  lemma WriteRequestFormat(m: WriteRequest)
    ensures EncodeWriteRequest(m) ==
            Join([Records([0x0a], m.body.timeseries, EncodeTimeSeries),
                  Records([0x1a], m.body.metadata, EncodeMetadata), m.unrecognized])
  {
    var b, post := m.body, m.unrecognized;
    RecordsFirst(1, [0x0a], b.timeseries, EncodeTimeSeries, Repeated(3, b.metadata, EncodeMetadata, []), post);
    RecordsFirst(3, [0x1a], b.metadata, EncodeMetadata, [], post);
    JoinThree(Records([0x0a], b.timeseries, EncodeTimeSeries), Records([0x1a], b.metadata, EncodeMetadata), post);
  }

  // ---------------------------------------------------------------- Histogram

  /** Counts, sum, schema and zero bucket. */
  function HeadParts(b: HistogramBody): seq<Bytes> {
    [OneOf([0x08], [0x11], b.count), Double([0x19], b.sum), Integer([0x20], ZigZag(b.schema)),
     Double([0x29], b.zeroThreshold), OneOf([0x30], [0x39], b.zeroCount)]
  }

  function NegativeParts(b: HistogramBody): seq<Bytes> {
    [Records([0x42], b.negativeSpans, EncodeBucketSpan), Packed([0x4a], b.negativeDeltas, Delta),
     Packed([0x52], b.negativeCounts, Float)]
  }

  function PositiveParts(b: HistogramBody): seq<Bytes> {
    [Records([0x5a], b.positiveSpans, EncodeBucketSpan), Packed([0x62], b.positiveDeltas, Delta),
     Packed([0x6a], b.positiveCounts, Float)]
  }

  function TrailerParts(m: Histogram): seq<Bytes> {
    [Integer([0x70], Unsigned(m.body.resetHint)), Integer([0x78], Unsigned(m.body.timestamp)),
     Packed([0x82, 0x01], m.body.customValues, Float), m.unrecognized]
  }

  lemma TrailerFormat(m: Histogram)
    ensures EncodeFields(TrailerFields(m.body), m.unrecognized) == Join(TrailerParts(m))
  {
    var b, post := m.body, m.unrecognized;
    var custom := OptFixeds(16, b.customValues, []);
    IntegerFirst(14, [0x70], Unsigned(b.resetHint), OptVarint(15, Unsigned(b.timestamp), custom), post);
    IntegerFirst(15, [0x78], Unsigned(b.timestamp), custom, post);
    assert Tag(16, 2) == [0x82, 0x01];
    FloatsFirst(16, [0x82, 0x01], b.customValues, [], post);
    var parts := TrailerParts(m);
    JoinFour(parts[0], parts[1], parts[2], parts[3]);
  }

  lemma BucketsFormat(spans: seq<BucketSpan>, deltas: seq<int>, counts: seq<nat>, num: nat, tags: seq<Byte>,
                      fs: seq<Field>, post: Bytes, rest: seq<Bytes>)
    requires |tags| == 3 && forall i | 0 <= i < 3 :: Tag(num + i, 2) == [tags[i]]
    requires EncodeFields(fs, post) == Join(rest)
    ensures EncodeFields(BucketFields(spans, deltas, counts, num, fs), post) ==
            Join([Records([tags[0]], spans, EncodeBucketSpan), Packed([tags[1]], deltas, Delta),
                  Packed([tags[2]], counts, Float)] + rest)
  {
    var counts', deltas' := OptFixeds(num + 2, counts, fs), OptVarints(num + 1, Map(ZigZag, deltas),
                                                                       OptFixeds(num + 2, counts, fs));
    RecordsFirst(num, [tags[0]], spans, EncodeBucketSpan, deltas', post);
    DeltasFirst(num + 1, [tags[1]], deltas, counts', post);
    FloatsFirst(num + 2, [tags[2]], counts, fs, post);
    JoinParts(Records([tags[0]], spans, EncodeBucketSpan), Packed([tags[1]], deltas, Delta),
              Packed([tags[2]], counts, Float), rest);
  }

  lemma JoinParts(x: Bytes, y: Bytes, z: Bytes, rest: seq<Bytes>)
    ensures Join([x, y, z] + rest) == x + (y + (z + Join(rest)))
  {
    JoinFirst(z, rest);
    JoinFirst(y, [z] + rest);
    JoinFirst(x, [y] + ([z] + rest));
    assert [x] + ([y] + ([z] + rest)) == [x, y, z] + rest;
  }

  lemma HistogramFormat(m: Histogram)
    ensures EncodeHistogram(m) ==
            Join(HeadParts(m.body) + NegativeParts(m.body) + PositiveParts(m.body) + TrailerParts(m))
  {
    var b, post, trailer := m.body, m.unrecognized, TrailerParts(m);
    TrailerFormat(m);
    var negative, positive := NegativeParts(b), PositiveParts(b);
    BucketsFormat(b.positiveSpans, b.positiveDeltas, b.positiveCounts, 11, [0x5a, 0x62, 0x6a], TrailerFields(b), post,
                  trailer);
    BucketsFormat(b.negativeSpans, b.negativeDeltas, b.negativeCounts, 8, [0x42, 0x4a, 0x52], PositiveFields(b), post,
                  positive + trailer);
    HeadFormat(b, post, negative + (positive + trailer));
    Assoc(HeadParts(b) + negative, positive, trailer);
    Assoc(HeadParts(b), negative, positive + trailer);
  }

  lemma ZeroFormat(b: HistogramBody, post: Bytes, rest: seq<Bytes>)
    requires EncodeFields(NegativeFields(b), post) == Join(rest)
    ensures EncodeFields(OptFloat(5, b.zeroThreshold, CountFields(b.zeroCount, 6, 7, NegativeFields(b))), post) ==
            Double([0x29], b.zeroThreshold) + (OneOf([0x30], [0x39], b.zeroCount) + Join(rest))
  {
    DoubleFirst(5, [0x29], b.zeroThreshold, CountFields(b.zeroCount, 6, 7, NegativeFields(b)), post);
    OneOfFirst(6, 7, [0x30], [0x39], b.zeroCount, NegativeFields(b), post);
  }

  lemma JoinHead(u: Bytes, v: Bytes, w: Bytes, x: Bytes, y: Bytes, rest: seq<Bytes>)
    ensures Join([u, v, w, x, y] + rest) == u + (v + (w + (x + (y + Join(rest)))))
  {
    JoinFirst(y, rest);
    JoinFirst(x, [y] + rest);
    JoinParts(u, v, w, [x] + ([y] + rest));
    assert [u, v, w] + ([x] + ([y] + rest)) == [u, v, w, x, y] + rest;
  }

  lemma HeadFormat(b: HistogramBody, post: Bytes, rest: seq<Bytes>)
    requires EncodeFields(NegativeFields(b), post) == Join(rest)
    ensures EncodeFields(HistogramFields(b), post) == Join(HeadParts(b) + rest)
  {
    var threshold := OptFloat(5, b.zeroThreshold, CountFields(b.zeroCount, 6, 7, NegativeFields(b)));
    var schema := OptVarint(4, ZigZag(b.schema), threshold);
    OneOfFirst(1, 2, [0x08], [0x11], b.count, OptFloat(3, b.sum, schema), post);
    DoubleFirst(3, [0x19], b.sum, schema, post);
    IntegerFirst(4, [0x20], ZigZag(b.schema), threshold, post);
    ZeroFormat(b, post, rest);
    JoinHead(OneOf([0x08], [0x11], b.count), Double([0x19], b.sum), Integer([0x20], ZigZag(b.schema)),
             Double([0x29], b.zeroThreshold), OneOf([0x30], [0x39], b.zeroCount), rest);
  }
}
