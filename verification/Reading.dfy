/**
 What a reader makes of fields in any order and any number (prompb/types.pb.go,
 prompb/remote.pb.go): a single value is that of its last field, a repeated one
 has the elements of all its fields in order, and of a oneof the last member
 counts.
 */
module Reading {
  import opened Prelude
  import opened Wire
  import opened Messages

  predicate Has(f: Field, num: nat) {
    !f.UnknownField? && f.num == num
  }

  // The value of the last field with a number, or `d` if there is none.

  function Data(fs: seq<Field>, num: nat, d: Bytes): Bytes
    decreases |fs|
  {
    if fs == [] then d else Data(fs[1..], num, if Has(fs[0], num) && fs[0].BytesField? then fs[0].data else d)
  }

  function Bits(fs: seq<Field>, num: nat, d: nat): nat
    decreases |fs|
  {
    if fs == [] then d else Bits(fs[1..], num, if Has(fs[0], num) && fs[0].FixedField? then fs[0].v else d)
  }

  function Number<T>(fs: seq<Field>, num: nat, conv: nat -> T, d: T): T
    decreases |fs|
  {
    if fs == [] then d
    else Number(fs[1..], num, conv, if Has(fs[0], num) && fs[0].VarintField? then conv(fs[0].v) else d)
  }

  /** A oneof of an integer and a float. */
  function Either(fs: seq<Field>, intNum: nat, floatNum: nat, d: Count): Count
    decreases |fs|
  {
    if fs == [] then d
    else
      Either(fs[1..], intNum, floatNum,
             if Has(fs[0], intNum) && fs[0].VarintField? then CountInt(fs[0].v)
             else if Has(fs[0], floatNum) && fs[0].FixedField? then CountFloat(fs[0].v) else d)
  }

  /** All records with a number, in order. */
  function RecordsIn(fs: seq<Field>, num: nat): seq<Bytes> {
    if fs == [] then []
    else if Has(fs[0], num) && fs[0].BytesField? then [fs[0].data] + RecordsIn(fs[1..], num)
    else RecordsIn(fs[1..], num)
  }

  /** All packed numbers of the fields with a number, in order. */
  function NumbersIn(fs: seq<Field>, num: nat): seq<nat> {
    if fs == [] then []
    else if Has(fs[0], num) && (fs[0].VarintsField? || fs[0].FixedsField?) then fs[0].vs + NumbersIn(fs[1..], num)
    else NumbersIn(fs[1..], num)
  }

  predicate AllRead<X>(records: seq<Bytes>, dec: Bytes -> Result<X, Error>) {
    forall i | 0 <= i < |records| :: dec(records[i]).Ok?
  }

  function Values<X>(records: seq<Bytes>, dec: Bytes -> Result<X, Error>): (xs: seq<X>)
    requires AllRead(records, dec)
    ensures |xs| == |records| && forall i | 0 <= i < |xs| :: dec(records[i]) == Ok(xs[i])
  {
    seq(|records|, i requires 0 <= i < |records| => dec(records[i]).value)
  }

  lemma FittingRest(fs: seq<Field>, kinds: Kinds)
    requires fs != [] && Fitting(fs, kinds)
    ensures Fitting(fs[1..], kinds)
  {
  }

  /** One more record in front. */
  lemma AllReadFirst<X>(data: Bytes, records: seq<Bytes>, dec: Bytes -> Result<X, Error>)
    ensures AllRead([data] + records, dec) <==> dec(data).Ok? && AllRead(records, dec)
  {
    var all := [data] + records;
    assert all[0] == data;
    if AllRead(all, dec) {
      forall i | 0 <= i < |records| ensures dec(records[i]).Ok? {
        assert all[i + 1] == records[i];
      }
    }
  }

  lemma ValuesFirst<X>(data: Bytes, records: seq<Bytes>, dec: Bytes -> Result<X, Error>, xs: seq<X>)
    ensures AllRead([data] + records, dec) <==> dec(data).Ok? && AllRead(records, dec)
    ensures dec(data).Ok? && AllRead(records, dec) ==>
              xs + Values([data] + records, dec) == xs + [dec(data).value] + Values(records, dec)
  {
    AllReadFirst(data, records, dec);
    if dec(data).Ok? && AllRead(records, dec) {
      var all, rest := Values([data] + records, dec), Values(records, dec);
      assert all == [dec(data).value] + rest;
      Assoc(xs, [dec(data).value], rest);
    }
  }

  lemma NoValues<X>(dec: Bytes -> Result<X, Error>, xs: seq<X>)
    ensures AllRead([], dec) && xs + Values([], dec) == xs
  {
    assert Values([], dec) == [];
  }

  // ---------------------------------------------------------------- messages of single values

  lemma {:induction false} LabelReads(fs: seq<Field>, b: LabelBody)
    requires Fitting(fs, LabelKinds)
    ensures ApplyAll(fs, ApplyLabel, b) == Ok(LabelBody(Data(fs, 1, b.name), Data(fs, 2, b.value)))
  {
    if fs != [] {
      FittingRest(fs, LabelKinds);
      LabelReads(fs[1..], ApplyLabel(b, fs[0]).value);
    }
  }

  lemma {:induction false} SampleReads(fs: seq<Field>, b: SampleBody)
    requires Fitting(fs, SampleKinds)
    ensures ApplyAll(fs, ApplySample, b) ==
            Ok(SampleBody(Bits(fs, 1, b.value), Number(fs, 2, Signed64, b.timestamp)))
  {
    if fs != [] {
      FittingRest(fs, SampleKinds);
      SampleReads(fs[1..], ApplySample(b, fs[0]).value);
    }
  }

  function Low32(v: nat): nat {
    v % TWO_32
  }

  function LowZigZag(v: nat): int {
    UnZigZag(v % TWO_32)
  }

  lemma {:induction false} BucketSpanReads(fs: seq<Field>, b: BucketSpanBody)
    requires Fitting(fs, BucketSpanKinds)
    ensures ApplyAll(fs, ApplyBucketSpan, b) ==
            Ok(BucketSpanBody(Number(fs, 1, LowZigZag, b.offset), Number(fs, 2, Low32, b.length)))
  {
    if fs != [] {
      FittingRest(fs, BucketSpanKinds);
      BucketSpanReads(fs[1..], ApplyBucketSpan(b, fs[0]).value);
    }
  }

  lemma {:induction false} MetadataReads(fs: seq<Field>, b: MetadataBody)
    requires Fitting(fs, MetadataKinds)
    ensures ApplyAll(fs, ApplyMetadata, b) ==
            Ok(MetadataBody(Number(fs, 1, Signed32, b.typ), Data(fs, 2, b.familyName),
                            Data(fs, 4, b.help), Data(fs, 5, b.unit)))
  {
    if fs != [] {
      FittingRest(fs, MetadataKinds);
      MetadataReads(fs[1..], ApplyMetadata(b, fs[0]).value);
    }
  }

  // ---------------------------------------------------------------- messages with records

  lemma {:induction false} ExemplarReads(fs: seq<Field>, b: ExemplarBody)
    requires Fitting(fs, ExemplarKinds)
    ensures ApplyAll(fs, ApplyExemplar, b).Ok? <==> AllRead(RecordsIn(fs, 1), DecodeLabel)
    ensures AllRead(RecordsIn(fs, 1), DecodeLabel) ==>
              ApplyAll(fs, ApplyExemplar, b) ==
              Ok(ExemplarBody(b.labels + Values(RecordsIn(fs, 1), DecodeLabel), Bits(fs, 2, b.value),
                              Number(fs, 3, Signed64, b.timestamp)))
  {
    if fs == [] {
      NoValues(DecodeLabel, b.labels);
    } else {
      FittingRest(fs, ExemplarKinds);
      if fs[0].BytesField? { ValuesFirst(fs[0].data, RecordsIn(fs[1..], 1), DecodeLabel, b.labels); }
      if ApplyExemplar(b, fs[0]).Ok? { ExemplarReads(fs[1..], ApplyExemplar(b, fs[0]).value); }
    }
  }

  lemma {:induction false} WriteRequestReads(fs: seq<Field>, b: WriteRequestBody)
    requires Fitting(fs, WriteRequestKinds)
    ensures ApplyAll(fs, ApplyWriteRequest, b).Ok? <==>
            AllRead(RecordsIn(fs, 1), DecodeTimeSeries) && AllRead(RecordsIn(fs, 3), DecodeMetadata)
    ensures AllRead(RecordsIn(fs, 1), DecodeTimeSeries) && AllRead(RecordsIn(fs, 3), DecodeMetadata) ==>
              ApplyAll(fs, ApplyWriteRequest, b) ==
              Ok(WriteRequestBody(b.timeseries + Values(RecordsIn(fs, 1), DecodeTimeSeries),
                                  b.metadata + Values(RecordsIn(fs, 3), DecodeMetadata)))
  {
    if fs == [] {
      NoValues(DecodeTimeSeries, b.timeseries);
      NoValues(DecodeMetadata, b.metadata);
    } else {
      FittingRest(fs, WriteRequestKinds);
      if fs[0].num == 1 {
        ValuesFirst(fs[0].data, RecordsIn(fs[1..], 1), DecodeTimeSeries, b.timeseries);
      } else {
        ValuesFirst(fs[0].data, RecordsIn(fs[1..], 3), DecodeMetadata, b.metadata);
      }
      if ApplyWriteRequest(b, fs[0]).Ok? { WriteRequestReads(fs[1..], ApplyWriteRequest(b, fs[0]).value); }
    }
  }

  predicate SeriesIsRead(fs: seq<Field>) {
    && AllRead(RecordsIn(fs, 1), DecodeLabel) && AllRead(RecordsIn(fs, 2), DecodeSample)
    && AllRead(RecordsIn(fs, 3), DecodeExemplar) && AllRead(RecordsIn(fs, 4), DecodeHistogram)
  }

  lemma {:induction false} TimeSeriesReads(fs: seq<Field>, b: TimeSeriesBody)
    requires Fitting(fs, TimeSeriesKinds)
    ensures ApplyAll(fs, ApplyTimeSeries, b).Ok? <==> SeriesIsRead(fs)
    ensures SeriesIsRead(fs) ==>
              ApplyAll(fs, ApplyTimeSeries, b) ==
              Ok(TimeSeriesBody(b.labels + Values(RecordsIn(fs, 1), DecodeLabel),
                                b.samples + Values(RecordsIn(fs, 2), DecodeSample),
                                b.exemplars + Values(RecordsIn(fs, 3), DecodeExemplar),
                                b.histograms + Values(RecordsIn(fs, 4), DecodeHistogram)))
  {
    if fs == [] {
      NoValues(DecodeLabel, b.labels);
      NoValues(DecodeSample, b.samples);
      NoValues(DecodeExemplar, b.exemplars);
      NoValues(DecodeHistogram, b.histograms);
    } else {
      FittingRest(fs, TimeSeriesKinds);
      var num, data, rest := fs[0].num, fs[0].data, fs[1..];
      if num == 1 {
        ValuesFirst(data, RecordsIn(rest, 1), DecodeLabel, b.labels);
      } else if num == 2 {
        ValuesFirst(data, RecordsIn(rest, 2), DecodeSample, b.samples);
      } else if num == 3 {
        ValuesFirst(data, RecordsIn(rest, 3), DecodeExemplar, b.exemplars);
      } else {
        ValuesFirst(data, RecordsIn(rest, 4), DecodeHistogram, b.histograms);
      }
      if ApplyTimeSeries(b, fs[0]).Ok? { TimeSeriesReads(rest, ApplyTimeSeries(b, fs[0]).value); }
    }
  }

  // ---------------------------------------------------------------- Histogram

  /** All the fields of a histogram. */
  function HistogramOf(fs: seq<Field>, b: HistogramBody): HistogramBody
    requires AllRead(RecordsIn(fs, 8), DecodeBucketSpan) && AllRead(RecordsIn(fs, 11), DecodeBucketSpan)
  {
    HistogramBody(
      Either(fs, 1, 2, b.count),
      Bits(fs, 3, b.sum),
      Number(fs, 4, LowZigZag, b.schema),
      Bits(fs, 5, b.zeroThreshold),
      Either(fs, 6, 7, b.zeroCount),
      b.negativeSpans + Values(RecordsIn(fs, 8), DecodeBucketSpan),
      b.negativeDeltas + Map(UnZigZag, NumbersIn(fs, 9)),
      b.negativeCounts + NumbersIn(fs, 10),
      b.positiveSpans + Values(RecordsIn(fs, 11), DecodeBucketSpan),
      b.positiveDeltas + Map(UnZigZag, NumbersIn(fs, 12)),
      b.positiveCounts + NumbersIn(fs, 13),
      Number(fs, 14, Signed32, b.resetHint),
      Number(fs, 15, Signed64, b.timestamp),
      b.customValues + NumbersIn(fs, 16))
  }

  predicate SpansAreRead(fs: seq<Field>) {
    AllRead(RecordsIn(fs, 8), DecodeBucketSpan) && AllRead(RecordsIn(fs, 11), DecodeBucketSpan)
  }

  lemma MapMore(ns: seq<int>, vs: seq<nat>, rest: seq<nat>)
    ensures ns + Map(UnZigZag, vs + rest) == ns + Map(UnZigZag, vs) + Map(UnZigZag, rest)
    ensures ns + Map(UnZigZag, []) == ns
  {
    assert Map(UnZigZag, vs + rest) == Map(UnZigZag, vs) + Map(UnZigZag, rest);
    assert Map(UnZigZag, []) == [];
    Assoc(ns, Map(UnZigZag, vs), Map(UnZigZag, rest));
  }

  lemma NoMore(b: HistogramBody)
    ensures SpansAreRead([]) && HistogramOf([], b) == b
  {
    NoValues(DecodeBucketSpan, b.negativeSpans);
    NoValues(DecodeBucketSpan, b.positiveSpans);
    MapMore(b.negativeDeltas, [], []);
    MapMore(b.positiveDeltas, [], []);
    NoneMore(b.negativeCounts);
    NoneMore(b.positiveCounts);
    NoneMore(b.customValues);
  }

  /** The first field of a histogram, and then the others. */
  ghost predicate FirstThenRest(fs: seq<Field>, b: HistogramBody)
    requires fs != []
  {
    && (SpansAreRead(fs) <==> ApplyHistogram(b, fs[0]).Ok? && SpansAreRead(fs[1..]))
    && (SpansAreRead(fs) ==> HistogramOf(fs, b) == HistogramOf(fs[1..], ApplyHistogram(b, fs[0]).value))
  }

  lemma VarintFirst(fs: seq<Field>, b: HistogramBody)
    requires fs != [] && Fitting(fs, HistogramKinds) && fs[0].VarintField?
    ensures FirstThenRest(fs, b)
  {
  }

  lemma FixedFirst(fs: seq<Field>, b: HistogramBody)
    requires fs != [] && Fitting(fs, HistogramKinds) && fs[0].FixedField?
    ensures FirstThenRest(fs, b)
  {
  }

  lemma SpanFirst(fs: seq<Field>, b: HistogramBody)
    requires fs != [] && Fitting(fs, HistogramKinds) && fs[0].BytesField?
    ensures FirstThenRest(fs, b)
  {
    var num := fs[0].num;
    ValuesFirst(fs[0].data, RecordsIn(fs[1..], num), DecodeBucketSpan,
                if num == 8 then b.negativeSpans else b.positiveSpans);
  }

  lemma DeltasFirst(fs: seq<Field>, b: HistogramBody)
    requires fs != [] && Fitting(fs, HistogramKinds) && fs[0].VarintsField?
    ensures FirstThenRest(fs, b)
  {
    var num := fs[0].num;
    MapMore(if num == 9 then b.negativeDeltas else b.positiveDeltas, fs[0].vs, NumbersIn(fs[1..], num));
  }

  lemma CountsFirst(fs: seq<Field>, b: HistogramBody)
    requires fs != [] && Fitting(fs, HistogramKinds) && fs[0].FixedsField?
    ensures FirstThenRest(fs, b)
  {
    var num := fs[0].num;
    Assoc(if num == 10 then b.negativeCounts else if num == 13 then b.positiveCounts else b.customValues, fs[0].vs,
          NumbersIn(fs[1..], num));
  }

  lemma HistogramFirst(fs: seq<Field>, b: HistogramBody)
    requires fs != [] && Fitting(fs, HistogramKinds)
    ensures FirstThenRest(fs, b)
  {
    match fs[0]
    case BytesField(_, _) => SpanFirst(fs, b);
    case VarintsField(_, _) => DeltasFirst(fs, b);
    case FixedsField(_, _) => CountsFirst(fs, b);
    case VarintField(_, _) => VarintFirst(fs, b);
    case FixedField(_, _) => FixedFirst(fs, b);
    case UnknownField(_) =>
  }

  lemma {:induction false} HistogramReads(fs: seq<Field>, b: HistogramBody)
    requires Fitting(fs, HistogramKinds)
    ensures ApplyAll(fs, ApplyHistogram, b).Ok? <==> SpansAreRead(fs)
    ensures SpansAreRead(fs) ==> ApplyAll(fs, ApplyHistogram, b) == Ok(HistogramOf(fs, b))
  {
    if fs == [] {
      NoMore(b);
    } else {
      FittingRest(fs, HistogramKinds);
      HistogramFirst(fs, b);
      if ApplyHistogram(b, fs[0]).Ok? { HistogramReads(fs[1..], ApplyHistogram(b, fs[0]).value); }
    }
  }

  // ---------------------------------------------------------------- from bytes

  /** A request from fields in any order, followed by bytes that are not known. */
  lemma WriteRequestFrom(fs: seq<Field>, unknown: Bytes)
    requires Fitting(fs, WriteRequestKinds) && WholeUnknown(unknown, WriteRequestKinds)
    requires |EncodeFields(fs, unknown)| < TWO_63
    requires AllRead(RecordsIn(fs, 1), DecodeTimeSeries) && AllRead(RecordsIn(fs, 3), DecodeMetadata)
    ensures DecodeWriteRequest(EncodeFields(fs, unknown)) ==
            Ok(Msg(WriteRequestBody(Values(RecordsIn(fs, 1), DecodeTimeSeries),
                                    Values(RecordsIn(fs, 3), DecodeMetadata)), unknown))
  {
    WriteRequestReads(fs, EMPTY_WRITE_REQUEST);
    NoneMore(Values(RecordsIn(fs, 1), DecodeTimeSeries));
    NoneMore(Values(RecordsIn(fs, 3), DecodeMetadata));
    MessageRoundTrip(fs, unknown, WriteRequestKinds, ApplyWriteRequest, EMPTY_WRITE_REQUEST);
  }
}
