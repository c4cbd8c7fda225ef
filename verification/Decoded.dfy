/**
 What is read from any bytes at all (prompb/types.pb.go, prompb/remote.pb.go): a
 message that Unmarshal accepts is one that the round trip is about, so that it can
 be marshalled again and is then read as it was, but for negative zeros.
 */
module Decoded {
  import opened Prelude
  import opened Wire
  import opened Messages

  // ---------------------------------------------------------------- the values of fields

  lemma {:induction false} LittleEndianInRange(s: Bytes)
    requires |s| == 8
    ensures FromLittleEndian(s) < TWO_64
  {
    assert FromLittleEndian(s) == s[0] + 256 * FromLittleEndian(s[1..]);
    assert FromLittleEndian(s[1..]) == s[1] + 256 * FromLittleEndian(s[2..]);
    assert FromLittleEndian(s[2..]) == s[2] + 256 * FromLittleEndian(s[3..]);
    assert FromLittleEndian(s[3..]) == s[3] + 256 * FromLittleEndian(s[4..]);
    assert FromLittleEndian(s[4..]) == s[4] + 256 * FromLittleEndian(s[5..]);
    assert FromLittleEndian(s[5..]) == s[5] + 256 * FromLittleEndian(s[6..]);
    assert FromLittleEndian(s[6..]) == s[6] + 256 * FromLittleEndian(s[7..]);
    assert FromLittleEndian(s[7..]) == s[7] + 256 * FromLittleEndian(s[8..]);
    assert FromLittleEndian(s[8..]) == 0;
  }

  lemma {:induction false} VarintsInRange(s: Bytes, length: int, vs: seq<nat>)
    requires Uint64s(vs) && ReadVarints(s, length, vs).Got?
    ensures Uint64s(ReadVarints(s, length, vs).value)
    decreases |s|
  {
    if length > 0 {
      var r := ReadVarint(s);
      VarintsInRange(s[r.n..], length - r.n, vs + [r.value]);
    }
  }

  lemma {:induction false} FixedsInRange(s: Bytes, length: int, vs: seq<nat>)
    requires Uint64s(vs) && ReadFixeds(s, length, vs).Got?
    ensures Uint64s(ReadFixeds(s, length, vs).value)
    decreases |s|
  {
    if length > 0 {
      LittleEndianInRange(s[..8]);
      FixedsInRange(s[8..], length - 8, vs + [ReadFixed(s).value]);
    }
  }

  /** Whatever the bytes, a field that is expected has values in range. */
  lemma {:induction false} FieldInRange(s: Bytes, kinds: Kinds)
    requires ReadField(s, kinds).Got? && !ReadField(s, kinds).value.UnknownField?
    ensures GoodValues(ReadField(s, kinds).value)
  {
    var tag := ReadTag(s);
    BodyInRange(s, tag.n, tag.value.num, tag.value.wireType, kinds(tag.value.num));
  }

  lemma {:induction false} BodyInRange(s: Bytes, n: nat, num: nat, wireType: nat, kind: Kind)
    requires 0 < n <= |s| && 0 < num < TWO_31
    requires ReadBody(s, n, num, wireType, kind).Got? && !ReadBody(s, n, num, wireType, kind).value.UnknownField?
    ensures GoodValues(ReadBody(s, n, num, wireType, kind).value)
  {
    var rest := s[n..];
    match kind
    case KFixed => LittleEndianInRange(rest[..8]);
    case KVarints => if wireType == 2 { VarintsInRange(rest[ReadLength(rest).n..], ReadLength(rest).value, []); }
    case KFixeds =>
      if wireType == 1 {
        LittleEndianInRange(rest[..8]);
      } else {
        FixedsInRange(rest[ReadLength(rest).n..], ReadLength(rest).value, []);
      }
    case _ =>
  }

  // ---------------------------------------------------------------- messages

  /** What every field keeps holds of what is decoded, and the unrecognized bytes are whole. */
  lemma {:induction false} DecodedKeeps<B(!new)>(s: Bytes, kinds: Kinds, apply: Apply<B>, m: Msg<B>, good: B -> bool)
    requires good(m.body) && Decode(s, kinds, apply, m).Ok?
    requires forall b, f | good(b) && GoodValues(f) && apply(b, f).Ok? :: good(apply(b, f).value)
    ensures good(Decode(s, kinds, apply, m).value.body)
    decreases |s|
  {
    if s != [] {
      var r := ReadField(s, kinds);
      if !r.value.UnknownField? { FieldInRange(s, kinds); }
      DecodedKeeps(s[r.n..], kinds, apply, ApplyField(m, r.value, apply).value, good);
    }
  }

  lemma {:induction false} DecodedLabel(s: Bytes)
    requires DecodeLabel(s).Ok?
    ensures GoodLabel(DecodeLabel(s).value)
  {
    UnrecognizedIsWhole(s, LabelKinds, ApplyLabel, Msg(EMPTY_LABEL, []));
  }

  lemma {:induction false} DecodedSample(s: Bytes)
    requires DecodeSample(s).Ok?
    ensures GoodSample(DecodeSample(s).value)
  {
    var good := (b: SampleBody) => Uint64(b.value) && Int64(b.timestamp);
    UnrecognizedIsWhole(s, SampleKinds, ApplySample, Msg(EMPTY_SAMPLE, []));
    DecodedKeeps(s, SampleKinds, ApplySample, Msg(EMPTY_SAMPLE, []), good);
  }

  lemma {:induction false} DecodedExemplar(s: Bytes)
    requires DecodeExemplar(s).Ok?
    ensures GoodExemplar(DecodeExemplar(s).value)
  {
    var good := (b: ExemplarBody) => (forall l | l in b.labels :: GoodLabel(l)) && Uint64(b.value) &&
      Int64(b.timestamp);
    forall b, f | good(b) && GoodValues(f) && ApplyExemplar(b, f).Ok? ensures good(ApplyExemplar(b, f).value) {
      if f.BytesField? { DecodedLabel(f.data); }
    }
    UnrecognizedIsWhole(s, ExemplarKinds, ApplyExemplar, Msg(EMPTY_EXEMPLAR, []));
    DecodedKeeps(s, ExemplarKinds, ApplyExemplar, Msg(EMPTY_EXEMPLAR, []), good);
  }

  lemma {:induction false} DecodedBucketSpan(s: Bytes)
    requires DecodeBucketSpan(s).Ok?
    ensures GoodBucketSpan(DecodeBucketSpan(s).value)
  {
    var good := (b: BucketSpanBody) => Int32(b.offset) && b.length < TWO_32;
    UnrecognizedIsWhole(s, BucketSpanKinds, ApplyBucketSpan, Msg(EMPTY_SPAN, []));
    DecodedKeeps(s, BucketSpanKinds, ApplyBucketSpan, Msg(EMPTY_SPAN, []), good);
  }

  lemma {:induction false} DecodedMetadata(s: Bytes)
    requires DecodeMetadata(s).Ok?
    ensures GoodMetadata(DecodeMetadata(s).value)
  {
    var good := (b: MetadataBody) => Int32(b.typ);
    UnrecognizedIsWhole(s, MetadataKinds, ApplyMetadata, Msg(EMPTY_METADATA, []));
    DecodedKeeps(s, MetadataKinds, ApplyMetadata, Msg(EMPTY_METADATA, []), good);
  }

  ghost predicate GoodHistogramBody(b: HistogramBody) {
    && GoodCount(b.count) && Uint64(b.sum) && Int32(b.schema) && Uint64(b.zeroThreshold) && GoodCount(b.zeroCount)
    && GoodSpans(b.negativeSpans) && Int64s(b.negativeDeltas) && Uint64s(b.negativeCounts)
    && GoodSpans(b.positiveSpans) && Int64s(b.positiveDeltas) && Uint64s(b.positiveCounts)
    && Int32(b.resetHint) && Int64(b.timestamp) && Uint64s(b.customValues)
  }

  lemma {:induction false} DeltasInRange(ns: seq<int>, vs: seq<nat>)
    requires Int64s(ns) && Uint64s(vs)
    ensures Int64s(ns + Map(UnZigZag, vs))
  {
    forall i | 0 <= i < |vs| ensures Int64(UnZigZag(vs[i])) {
    }
  }

  lemma {:induction false} NumberKeeps(b: HistogramBody, num: nat, v: nat)
    requires GoodHistogramBody(b) && v < TWO_64
    ensures GoodHistogramBody(ApplyVarint(b, num, v)) && GoodHistogramBody(ApplyFixed(b, num, v))
  {
  }

  lemma {:induction false} ListKeeps(b: HistogramBody, f: Field)
    requires GoodHistogramBody(b) && GoodValues(f) && (f.VarintsField? || f.FixedsField?)
    ensures GoodHistogramBody(ApplyHistogram(b, f).value)
  {
    if f.VarintsField? {
      DeltasInRange(b.negativeDeltas, f.vs);
      DeltasInRange(b.positiveDeltas, f.vs);
    }
  }

  lemma {:induction false} SpanKeeps(b: HistogramBody, f: Field)
    requires GoodHistogramBody(b) && f.BytesField? && ApplyHistogram(b, f).Ok?
    ensures GoodHistogramBody(ApplyHistogram(b, f).value)
  {
    DecodedBucketSpan(f.data);
  }

  lemma {:induction false} HistogramFieldKeeps(b: HistogramBody, f: Field)
    requires GoodHistogramBody(b) && GoodValues(f) && ApplyHistogram(b, f).Ok?
    ensures GoodHistogramBody(ApplyHistogram(b, f).value)
  {
    match f
    case VarintField(num, v) => NumberKeeps(b, num, v);
    case FixedField(num, v) => NumberKeeps(b, num, v);
    case BytesField(_, _) => SpanKeeps(b, f);
    case _ => ListKeeps(b, f);
  }

  lemma {:induction false} DecodedHistogram(s: Bytes)
    requires DecodeHistogram(s).Ok?
    ensures GoodHistogram(DecodeHistogram(s).value)
  {
    var good := (b: HistogramBody) => GoodHistogramBody(b);
    forall b, f | good(b) && GoodValues(f) && ApplyHistogram(b, f).Ok? ensures good(ApplyHistogram(b, f).value) {
      HistogramFieldKeeps(b, f);
    }
    UnrecognizedIsWhole(s, HistogramKinds, ApplyHistogram, Msg(EMPTY_HISTOGRAM, []));
    DecodedKeeps(s, HistogramKinds, ApplyHistogram, Msg(EMPTY_HISTOGRAM, []), good);
  }

  ghost predicate GoodTimeSeriesBody(b: TimeSeriesBody) {
    && (forall x | x in b.labels :: GoodLabel(x))
    && (forall x | x in b.samples :: GoodSample(x))
    && (forall x | x in b.exemplars :: GoodExemplar(x))
    && (forall x | x in b.histograms :: GoodHistogram(x))
  }

  lemma {:induction false} TimeSeriesFieldKeeps(b: TimeSeriesBody, f: Field)
    requires GoodTimeSeriesBody(b) && ApplyTimeSeries(b, f).Ok?
    ensures GoodTimeSeriesBody(ApplyTimeSeries(b, f).value)
  {
    if f.BytesField? {
      if f.num == 1 {
        DecodedLabel(f.data);
      } else if f.num == 2 {
        DecodedSample(f.data);
      } else if f.num == 3 {
        DecodedExemplar(f.data);
      } else {
        DecodedHistogram(f.data);
      }
    }
  }

  lemma {:induction false} DecodedTimeSeries(s: Bytes)
    requires DecodeTimeSeries(s).Ok?
    ensures GoodTimeSeries(DecodeTimeSeries(s).value)
  {
    var good := (b: TimeSeriesBody) => GoodTimeSeriesBody(b);
    forall b, f | good(b) && GoodValues(f) && ApplyTimeSeries(b, f).Ok? ensures good(ApplyTimeSeries(b, f).value) {
      TimeSeriesFieldKeeps(b, f);
    }
    UnrecognizedIsWhole(s, TimeSeriesKinds, ApplyTimeSeries, Msg(EMPTY_TIME_SERIES, []));
    DecodedKeeps(s, TimeSeriesKinds, ApplyTimeSeries, Msg(EMPTY_TIME_SERIES, []), good);
  }

  ghost predicate GoodWriteRequestBody(b: WriteRequestBody) {
    (forall x | x in b.timeseries :: GoodTimeSeries(x)) && (forall x | x in b.metadata :: GoodMetadata(x))
  }

  lemma {:induction false} WriteRequestFieldKeeps(b: WriteRequestBody, f: Field)
    requires GoodWriteRequestBody(b) && ApplyWriteRequest(b, f).Ok?
    ensures GoodWriteRequestBody(ApplyWriteRequest(b, f).value)
  {
    if f.BytesField? {
      if f.num == 1 {
        DecodedTimeSeries(f.data);
      } else {
        DecodedMetadata(f.data);
      }
    }
  }

  /** Whatever the bytes, a request that is read is a good one. */
  lemma {:induction false} DecodedIsGood(s: Bytes)
    requires DecodeWriteRequest(s).Ok?
    ensures GoodWriteRequest(DecodeWriteRequest(s).value)
  {
    var good := (b: WriteRequestBody) => GoodWriteRequestBody(b);
    forall b, f | good(b) && GoodValues(f) && ApplyWriteRequest(b, f).Ok? ensures good(ApplyWriteRequest(b, f).value) {
      WriteRequestFieldKeeps(b, f);
    }
    UnrecognizedIsWhole(s, WriteRequestKinds, ApplyWriteRequest, Msg(EMPTY_WRITE_REQUEST, []));
    DecodedKeeps(s, WriteRequestKinds, ApplyWriteRequest, Msg(EMPTY_WRITE_REQUEST, []), good);
  }

  // ---------------------------------------------------------------- passing a request on

  /** A request that was read, from whatever bytes, and is written again is read as it was, exactly when it has no
      negative zero. */
  lemma {:induction false} RelayExactly(s: Bytes)
    requires DecodeWriteRequest(s).Ok? && |EncodeWriteRequest(DecodeWriteRequest(s).value)| < TWO_63
    ensures var m := DecodeWriteRequest(s).value;
            && DecodeWriteRequest(EncodeWriteRequest(m)) == Ok(PlainWriteRequest(m))
            && (DecodeWriteRequest(EncodeWriteRequest(m)) == DecodeWriteRequest(s) <==> NoNegativeZero(m))
  {
    var m := DecodeWriteRequest(s).value;
    DecodedIsGood(s);
    WriteRequestRoundTrip(m);
    RoundTripExactly(m);
  }

  lemma {:induction false} RepeatedSame<X>(num: nat, xs: seq<X>, ys: seq<X>, enc: X -> Bytes, fs: seq<Field>)
    requires |xs| == |ys| && forall i | 0 <= i < |xs| :: enc(xs[i]) == enc(ys[i])
    ensures Repeated(num, xs, enc, fs) == Repeated(num, ys, enc, fs)
  {
    if xs != [] { RepeatedSame(num, xs[1..], ys[1..], enc, fs); }
  }

  lemma {:induction false} PlainHistogramWritten(m: Messages.Histogram)
    ensures EncodeHistogram(PlainHistogram(m)) == EncodeHistogram(m)
  {
    assert NegativeFields(PlainHistogramBody(m.body)) == NegativeFields(m.body);
  }

  lemma {:induction false} PlainTimeSeriesWritten(m: TimeSeries)
    ensures EncodeTimeSeries(PlainTimeSeries(m)) == EncodeTimeSeries(m)
  {
    var b, b' := m.body, PlainTimeSeriesBody(m.body);
    forall i | 0 <= i < |b.histograms| ensures EncodeHistogram(b'.histograms[i]) == EncodeHistogram(b.histograms[i]) {
      PlainHistogramWritten(b.histograms[i]);
    }
    RepeatedSame(4, b'.histograms, b.histograms, EncodeHistogram, []);
    var histograms := Repeated(4, b.histograms, EncodeHistogram, []);
    RepeatedSame(3, b'.exemplars, b.exemplars, EncodeExemplar, histograms);
    RepeatedSame(2, b'.samples, b.samples, EncodeSample, Repeated(3, b.exemplars, EncodeExemplar, histograms));
  }

  /** A negative zero is written as zero is. */
  lemma {:induction false} PlainWritten(m: WriteRequest)
    ensures EncodeWriteRequest(PlainWriteRequest(m)) == EncodeWriteRequest(m)
  {
    var xs := m.body.timeseries;
    forall i | 0 <= i < |xs| ensures EncodeTimeSeries(Map(PlainTimeSeries, xs)[i]) == EncodeTimeSeries(xs[i]) {
      PlainTimeSeriesWritten(xs[i]);
    }
    RepeatedSame(1, Map(PlainTimeSeries, xs), xs, EncodeTimeSeries, Repeated(3, m.body.metadata, EncodeMetadata, []));
  }

  /** After one round trip there is nothing left to lose: reading and writing again changes neither request nor
      bytes. */
  lemma {:induction false} SecondRelayIsExact(s: Bytes)
    requires DecodeWriteRequest(s).Ok? && |EncodeWriteRequest(DecodeWriteRequest(s).value)| < TWO_63
    ensures var s' := EncodeWriteRequest(DecodeWriteRequest(s).value);
            var m' := DecodeWriteRequest(s');
            m'.Ok? && EncodeWriteRequest(m'.value) == s' && DecodeWriteRequest(EncodeWriteRequest(m'.value)) == m'
  {
    RelayExactly(s);
    PlainWritten(DecodeWriteRequest(s).value);
  }
}
