/**
 Size (prompb/types.pb.go, prompb/remote.pb.go): what marshalling will write, worked
 out before. The buffer of exactly that size is filled from its end to its start.
 */
module Sizes {
  import opened Wire
  import opened Messages
  import opened Marshal

  // ---------------------------------------------------------------- what a field adds

  lemma {:induction false} FrontSize(num: nat, f: Field, fs: seq<Field>, post: Bytes)
    requires num < 16 && !f.UnknownField? && f.num == num
    ensures |EncodeFields([f] + fs, post)| == 1 + |Body(f)| + |EncodeFields(fs, post)|
  {
    assert ([f] + fs)[1..] == fs;
    TwoBytes(8 * num + WireType(f));
  }

  lemma {:induction false} VarintSize(num: nat, v: nat, fs: seq<Field>, post: Bytes)
    requires num < 16
    ensures |EncodeFields(OptVarint(num, v, fs), post)| == (if v == 0 then 0 else 1 + Sov(v)) + |EncodeFields(fs, post)|
  {
    SovIsLength(v);
    FrontSize(num, VarintField(num, v), fs, post);
  }

  lemma {:induction false} FloatSize(num: nat, bits: nat, fs: seq<Field>, post: Bytes)
    requires num < 16
    ensures |EncodeFields(OptFloat(num, bits, fs), post)| ==
            (if FloatIsZero(bits) then 0 else 9) + |EncodeFields(fs, post)|
  {
    FrontSize(num, FixedField(num, bits), fs, post);
  }

  lemma {:induction false} BytesSize(num: nat, data: Bytes, fs: seq<Field>, post: Bytes)
    requires num < 16
    ensures |EncodeFields(OptBytes(num, data, fs), post)| ==
            (if data == [] then 0 else 1 + |data| + Sov(|data|)) + |EncodeFields(fs, post)|
  {
    SovIsLength(|data|);
    FrontSize(num, BytesField(num, data), fs, post);
  }

  lemma {:induction false} FixedsSize(num: nat, vs: seq<nat>, fs: seq<Field>, post: Bytes)
    requires num <= 16
    ensures |EncodeFields(OptFixeds(num, vs, fs), post)| ==
            (if vs == [] then 0 else (if num < 16 then 1 else 2) + Sov(8 * |vs|) + 8 * |vs|) + |EncodeFields(fs, post)|
  {
    SovIsLength(8 * |vs|);
    var f := FixedsField(num, vs);
    assert ([f] + fs)[1..] == fs;
    TwoBytes(8 * num + 2);
  }

  lemma {:induction false} VarintsSize(num: nat, vs: seq<nat>, fs: seq<Field>, post: Bytes)
    requires num < 16
    ensures |EncodeFields(OptVarints(num, vs, fs), post)| ==
            (if vs == [] then 0 else 1 + Sov(|Varints(vs)|) + |Varints(vs)|) + |EncodeFields(fs, post)|
  {
    SovIsLength(|Varints(vs)|);
    FrontSize(num, VarintsField(num, vs), fs, post);
  }

  /** The records of a repeated field, with their tags and lengths. */
  ghost function RecordsSize<X>(xs: seq<X>, enc: X -> Bytes): nat {
    if xs == [] then 0 else 1 + |enc(xs[0])| + Sov(|enc(xs[0])|) + RecordsSize(xs[1..], enc)
  }

  lemma {:induction false} RecordsStep<X>(xs: seq<X>, enc: X -> Bytes, k: nat)
    requires k < |xs|
    ensures RecordsSize(xs[k..], enc) == 1 + |enc(xs[k])| + Sov(|enc(xs[k])|) + RecordsSize(xs[k + 1..], enc)
  {
    assert xs[k..][1..] == xs[k + 1..];
  }

  lemma {:induction false} RepeatedSize<X>(num: nat, xs: seq<X>, enc: X -> Bytes, fs: seq<Field>, post: Bytes)
    requires num < 16
    ensures |EncodeFields(Repeated(num, xs, enc, fs), post)| == RecordsSize(xs, enc) + |EncodeFields(fs, post)|
  {
    if xs != [] {
      SovIsLength(|enc(xs[0])|);
      FrontSize(num, BytesField(num, enc(xs[0])), Repeated(num, xs[1..], enc, fs), post);
      RepeatedSize(num, xs[1..], enc, fs, post);
    }
  }

  // ---------------------------------------------------------------- messages

  method SizeBytes(data: Bytes) returns (n: nat)
    ensures n == if data == [] then 0 else 1 + |data| + Sov(|data|)
  {
    n := 0;
    var l := |data|;
    if l > 0 { n := n + 1 + l + Sov(l); }
  }

  method SizeLabel(m: Label) returns (n: nat)
    ensures n == |EncodeLabel(m)|
  {
    n := SizeBytes(m.body.name);
    var l := SizeBytes(m.body.value);
    n := n + l + |m.unrecognized|;
    BytesSize(1, m.body.name, OptBytes(2, m.body.value, []), m.unrecognized);
    BytesSize(2, m.body.value, [], m.unrecognized);
  }

  method SizeLabels(xs: seq<Label>) returns (n: nat)
    ensures n == RecordsSize(xs, EncodeLabel)
  {
    n := 0;
    assert xs[0..] == xs;
    for k := 0 to |xs|
      invariant n + RecordsSize(xs[k..], EncodeLabel) == RecordsSize(xs, EncodeLabel)
    {
      RecordsStep(xs, EncodeLabel, k);
      var l := SizeLabel(xs[k]);
      n := n + (1 + l + Sov(l));
    }
  }

  method SizeSample(m: Sample) returns (n: nat)
    ensures n == |EncodeSample(m)|
  {
    n := 0;
    var t := Unsigned(m.body.timestamp);
    if !FloatIsZero(m.body.value) { n := n + 9; }
    if t != 0 { n := n + 1 + Sov(t); }
    n := n + |m.unrecognized|;
    FloatSize(1, m.body.value, OptVarint(2, t, []), m.unrecognized);
    VarintSize(2, t, [], m.unrecognized);
  }

  method SizeSamples(xs: seq<Sample>) returns (n: nat)
    ensures n == RecordsSize(xs, EncodeSample)
  {
    n := 0;
    assert xs[0..] == xs;
    for k := 0 to |xs|
      invariant n + RecordsSize(xs[k..], EncodeSample) == RecordsSize(xs, EncodeSample)
    {
      RecordsStep(xs, EncodeSample, k);
      var l := SizeSample(xs[k]);
      n := n + (1 + l + Sov(l));
    }
  }

  method SizeExemplar(m: Exemplar) returns (n: nat)
    ensures n == |EncodeExemplar(m)|
  {
    n := SizeLabels(m.body.labels);
    var t := Unsigned(m.body.timestamp);
    if !FloatIsZero(m.body.value) { n := n + 9; }
    if t != 0 { n := n + 1 + Sov(t); }
    n := n + |m.unrecognized|;
    RepeatedSize(1, m.body.labels, EncodeLabel, OptFloat(2, m.body.value, OptVarint(3, t, [])), m.unrecognized);
    FloatSize(2, m.body.value, OptVarint(3, t, []), m.unrecognized);
    VarintSize(3, t, [], m.unrecognized);
  }

  method SizeExemplars(xs: seq<Exemplar>) returns (n: nat)
    ensures n == RecordsSize(xs, EncodeExemplar)
  {
    n := 0;
    assert xs[0..] == xs;
    for k := 0 to |xs|
      invariant n + RecordsSize(xs[k..], EncodeExemplar) == RecordsSize(xs, EncodeExemplar)
    {
      RecordsStep(xs, EncodeExemplar, k);
      var l := SizeExemplar(xs[k]);
      n := n + (1 + l + Sov(l));
    }
  }

  method SizeBucketSpan(m: BucketSpan) returns (n: nat)
    ensures n == |EncodeBucketSpan(m)|
  {
    n := 0;
    var z := ZigZag(m.body.offset);
    if z != 0 { n := n + 1 + Sov(z); }
    if m.body.length != 0 { n := n + 1 + Sov(m.body.length); }
    n := n + |m.unrecognized|;
    VarintSize(1, z, OptVarint(2, m.body.length, []), m.unrecognized);
    VarintSize(2, m.body.length, [], m.unrecognized);
  }

  method SizeBucketSpans(xs: seq<BucketSpan>) returns (n: nat)
    ensures n == RecordsSize(xs, EncodeBucketSpan)
  {
    n := 0;
    assert xs[0..] == xs;
    for k := 0 to |xs|
      invariant n + RecordsSize(xs[k..], EncodeBucketSpan) == RecordsSize(xs, EncodeBucketSpan)
    {
      RecordsStep(xs, EncodeBucketSpan, k);
      var l := SizeBucketSpan(xs[k]);
      n := n + (1 + l + Sov(l));
    }
  }

  method SizeMetadata(m: MetricMetadata) returns (n: nat)
    ensures n == |EncodeMetadata(m)|
  {
    n := 0;
    var t := Unsigned(m.body.typ);
    if t != 0 { n := n + 1 + Sov(t); }
    var l1 := SizeBytes(m.body.familyName);
    var l2 := SizeBytes(m.body.help);
    var l3 := SizeBytes(m.body.unit);
    n := n + l1 + l2 + l3 + |m.unrecognized|;
    ghost var unit := OptBytes(5, m.body.unit, []);
    ghost var help := OptBytes(4, m.body.help, unit);
    VarintSize(1, t, OptBytes(2, m.body.familyName, help), m.unrecognized);
    BytesSize(2, m.body.familyName, help, m.unrecognized);
    BytesSize(4, m.body.help, unit, m.unrecognized);
    BytesSize(5, m.body.unit, [], m.unrecognized);
  }

  method SizeMetadataList(xs: seq<MetricMetadata>) returns (n: nat)
    ensures n == RecordsSize(xs, EncodeMetadata)
  {
    n := 0;
    assert xs[0..] == xs;
    for k := 0 to |xs|
      invariant n + RecordsSize(xs[k..], EncodeMetadata) == RecordsSize(xs, EncodeMetadata)
    {
      RecordsStep(xs, EncodeMetadata, k);
      var l := SizeMetadata(xs[k]);
      n := n + (1 + l + Sov(l));
    }
  }

  // Histogram, in the parts of its fields

  method SizeDeltas(deltas: seq<int>) returns (l: nat)
    ensures l == |Varints(Map(ZigZag, deltas))|
  {
    l := 0;
    ghost var vs := Map(ZigZag, deltas);
    assert vs[0..] == vs;
    for k := 0 to |deltas|
      invariant l + |Varints(vs[k..])| == |Varints(vs)|
    {
      assert vs[k..][1..] == vs[k + 1..];
      SovIsLength(vs[k]);
      l := l + Sov(ZigZag(deltas[k]));
    }
  }

  /** Spans, deltas and counts of one sign. */
  method SizeBuckets(spans: seq<BucketSpan>, deltas: seq<int>, counts: seq<nat>, ghost num: nat, ghost fs: seq<Field>,
                     ghost post: Bytes)
    returns (n: nat)
    requires num < 14
    ensures n + |EncodeFields(fs, post)| == |EncodeFields(BucketFields(spans, deltas, counts, num, fs), post)|
  {
    n := SizeBucketSpans(spans);
    ghost var zs := Map(ZigZag, deltas);
    if |deltas| > 0 {
      var l := SizeDeltas(deltas);
      n := n + 1 + Sov(l) + l;
    }
    if |counts| > 0 { n := n + 1 + Sov(8 * |counts|) + 8 * |counts|; }
    RepeatedSize(num, spans, EncodeBucketSpan, OptVarints(num + 1, zs, OptFixeds(num + 2, counts, fs)), post);
    VarintsSize(num + 1, zs, OptFixeds(num + 2, counts, fs), post);
    FixedsSize(num + 2, counts, fs, post);
  }

  method SizeTrailer(b: HistogramBody, ghost post: Bytes) returns (n: nat)
    ensures n + |post| == |EncodeFields(TrailerFields(b), post)|
  {
    n := 0;
    var hint, t := Unsigned(b.resetHint), Unsigned(b.timestamp);
    if hint != 0 { n := n + 1 + Sov(hint); }
    if t != 0 { n := n + 1 + Sov(t); }
    if |b.customValues| > 0 { n := n + 2 + Sov(8 * |b.customValues|) + 8 * |b.customValues|; }
    ghost var custom := OptFixeds(16, b.customValues, []);
    VarintSize(14, hint, OptVarint(15, t, custom), post);
    VarintSize(15, t, custom, post);
    FixedsSize(16, b.customValues, [], post);
  }

  method SizeCount(c: Count, ghost intNum: nat, ghost floatNum: nat, ghost fs: seq<Field>, ghost post: Bytes)
    returns (n: nat)
    requires intNum < 16 && floatNum < 16
    ensures n + |EncodeFields(fs, post)| == |EncodeFields(CountFields(c, intNum, floatNum, fs), post)|
  {
    match c
    case NoCount => n := 0;
    case CountInt(v) =>
      n := 1 + Sov(v);
      SovIsLength(v);
      FrontSize(intNum, VarintField(intNum, v), fs, post);
    case CountFloat(bits) =>
      n := 9;
      FrontSize(floatNum, FixedField(floatNum, bits), fs, post);
  }

  /** Count, sum, schema, zero threshold and zero count. */
  method SizeHistogramHead(b: HistogramBody, ghost post: Bytes) returns (n: nat)
    ensures n + |EncodeFields(NegativeFields(b), post)| == |EncodeFields(HistogramFields(b), post)|
  {
    ghost var zero := CountFields(b.zeroCount, 6, 7, NegativeFields(b));
    ghost var threshold := OptFloat(5, b.zeroThreshold, zero);
    var z := ZigZag(b.schema);
    ghost var schema := OptVarint(4, z, threshold);
    n := SizeCount(b.count, 1, 2, OptFloat(3, b.sum, schema), post);
    if !FloatIsZero(b.sum) { n := n + 9; }
    if z != 0 { n := n + 1 + Sov(z); }
    if !FloatIsZero(b.zeroThreshold) { n := n + 9; }
    var l := SizeCount(b.zeroCount, 6, 7, NegativeFields(b), post);
    n := n + l;
    FloatSize(3, b.sum, schema, post);
    VarintSize(4, z, threshold, post);
    FloatSize(5, b.zeroThreshold, zero, post);
  }

  method SizeHistogram(m: Histogram) returns (n: nat)
    ensures n == |EncodeHistogram(m)|
  {
    var b := m.body;
    n := SizeHistogramHead(b, m.unrecognized);
    var negative :=
        SizeBuckets(b.negativeSpans, b.negativeDeltas, b.negativeCounts, 8, PositiveFields(b), m.unrecognized);
    var positive :=
        SizeBuckets(b.positiveSpans, b.positiveDeltas, b.positiveCounts, 11, TrailerFields(b), m.unrecognized);
    var trailer := SizeTrailer(b, m.unrecognized);
    n := n + negative + positive + trailer + |m.unrecognized|;
  }

  method SizeHistograms(xs: seq<Histogram>) returns (n: nat)
    ensures n == RecordsSize(xs, EncodeHistogram)
  {
    n := 0;
    assert xs[0..] == xs;
    for k := 0 to |xs|
      invariant n + RecordsSize(xs[k..], EncodeHistogram) == RecordsSize(xs, EncodeHistogram)
    {
      RecordsStep(xs, EncodeHistogram, k);
      var l := SizeHistogram(xs[k]);
      n := n + (1 + l + Sov(l));
    }
  }

  method SizeTimeSeries(m: TimeSeries) returns (n: nat)
    ensures n == |EncodeTimeSeries(m)|
  {
    var b := m.body;
    n := SizeLabels(b.labels);
    var samples := SizeSamples(b.samples);
    var exemplars := SizeExemplars(b.exemplars);
    var histograms := SizeHistograms(b.histograms);
    n := n + samples + exemplars + histograms + |m.unrecognized|;
    ghost var hs := Repeated(4, b.histograms, EncodeHistogram, []);
    ghost var es := Repeated(3, b.exemplars, EncodeExemplar, hs);
    RepeatedSize(1, b.labels, EncodeLabel, Repeated(2, b.samples, EncodeSample, es), m.unrecognized);
    RepeatedSize(2, b.samples, EncodeSample, es, m.unrecognized);
    RepeatedSize(3, b.exemplars, EncodeExemplar, hs, m.unrecognized);
    RepeatedSize(4, b.histograms, EncodeHistogram, [], m.unrecognized);
  }

  method SizeTimeSeriesList(xs: seq<TimeSeries>) returns (n: nat)
    ensures n == RecordsSize(xs, EncodeTimeSeries)
  {
    n := 0;
    assert xs[0..] == xs;
    for k := 0 to |xs|
      invariant n + RecordsSize(xs[k..], EncodeTimeSeries) == RecordsSize(xs, EncodeTimeSeries)
    {
      RecordsStep(xs, EncodeTimeSeries, k);
      var l := SizeTimeSeries(xs[k]);
      n := n + (1 + l + Sov(l));
    }
  }

  method SizeWriteRequest(m: WriteRequest) returns (n: nat)
    ensures n == |EncodeWriteRequest(m)|
  {
    n := SizeTimeSeriesList(m.body.timeseries);
    var l := SizeMetadataList(m.body.metadata);
    n := n + l + |m.unrecognized|;
    RepeatedSize(1, m.body.timeseries, EncodeTimeSeries, Repeated(3, m.body.metadata, EncodeMetadata, []),
                 m.unrecognized);
    RepeatedSize(3, m.body.metadata, EncodeMetadata, [], m.unrecognized);
  }

  /** Marshal: the size comes out exactly, so the buffer is full and what is returned is the whole of it. */
  method MarshalWriteRequest(m: WriteRequest) returns (data: Bytes)
    requires AllInRange(m.body.timeseries)
    ensures data == EncodeWriteRequest(m)
  {
    var size := SizeWriteRequest(m);
    var a := new Byte[size];
    var n := PutWriteRequest(a, size, m);
    data := a[..n];
  }
}
