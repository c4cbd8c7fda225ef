/**
 The messages of a remote-write request (prompb/types.pb.go, prompb/remote.pb.go):
 how they are written as fields, how a field read changes a message, and that
 reading back what was written gives the message again.

 Each message keeps the bytes of fields it does not know. Reading back gives the
 message itself but for negative zeros in singular floats, which are left out when
 writing and come back as positive ones; Plain* says what comes back.
 */
module Messages {
  import opened Prelude
  import opened Wire

  predicate Int64(n: int) {
    -TWO_63 <= n < TWO_63
  }

  predicate Int32(n: int) {
    -TWO_31 <= n < TWO_31
  }

  predicate Uint64(n: nat) {
    n < TWO_64
  }

  /** A singular float after it has been written and read. */
  function PlainFloat(bits: nat): nat {
    if FloatIsZero(bits) then 0 else bits
  }

  // ---------------------------------------------------------------- Label

  datatype LabelBody = LabelBody(name: Bytes, value: Bytes)

  type Label = Msg<LabelBody>

  const EMPTY_LABEL := LabelBody([], [])

  function LabelFields(b: LabelBody): seq<Field> {
    OptBytes(1, b.name, OptBytes(2, b.value, []))
  }

  function EncodeLabel(m: Label): Bytes {
    EncodeFields(LabelFields(m.body), m.unrecognized)
  }

  function LabelKinds(num: nat): Kind {
    if num == 1 || num == 2 then KBytes else KNone
  }

  function ApplyLabel(b: LabelBody, f: Field): Result<LabelBody, Error> {
    match f
    case BytesField(num, data) => Ok(if num == 1 then b.(name := data) else b.(value := data))
    case _ => Ok(b)
  }

  function DecodeLabel(s: Bytes): Result<Label, Error> {
    Decode(s, LabelKinds, ApplyLabel, Msg(EMPTY_LABEL, []))
  }

  ghost predicate GoodLabel(m: Label) {
    WholeUnknown(m.unrecognized, LabelKinds)
  }

  lemma {:induction false} LabelApplies(b: LabelBody)
    ensures ApplyAll(LabelFields(b), ApplyLabel, EMPTY_LABEL) == Ok(b)
  {
    var fs := OptBytes(2, b.value, []);
    ApplyFirst(BytesField(1, b.name), fs, ApplyLabel, EMPTY_LABEL);
    ApplyFirst(BytesField(2, b.value), [], ApplyLabel, LabelBody(b.name, []));
  }

  lemma {:induction false} LabelRoundTrip(m: Label)
    requires GoodLabel(m) && |EncodeLabel(m)| < TWO_63
    ensures DecodeLabel(EncodeLabel(m)) == Ok(m)
  {
    LabelApplies(m.body);
    MessageRoundTrip(LabelFields(m.body), m.unrecognized, LabelKinds, ApplyLabel, EMPTY_LABEL);
  }

  // ---------------------------------------------------------------- Sample

  datatype SampleBody = SampleBody(value: nat, timestamp: int)

  type Sample = Msg<SampleBody>

  const EMPTY_SAMPLE := SampleBody(0, 0)

  function SampleFields(b: SampleBody): seq<Field> {
    OptFloat(1, b.value, OptVarint(2, Unsigned(b.timestamp), []))
  }

  function EncodeSample(m: Sample): Bytes {
    EncodeFields(SampleFields(m.body), m.unrecognized)
  }

  function SampleKinds(num: nat): Kind {
    if num == 1 then KFixed else if num == 2 then KVarint else KNone
  }

  function ApplySample(b: SampleBody, f: Field): Result<SampleBody, Error> {
    match f
    case FixedField(_, v) => Ok(b.(value := v))
    case VarintField(_, v) => Ok(b.(timestamp := Signed64(v)))
    case _ => Ok(b)
  }

  function DecodeSample(s: Bytes): Result<Sample, Error> {
    Decode(s, SampleKinds, ApplySample, Msg(EMPTY_SAMPLE, []))
  }

  ghost predicate GoodSample(m: Sample) {
    Uint64(m.body.value) && Int64(m.body.timestamp) && WholeUnknown(m.unrecognized, SampleKinds)
  }

  function PlainSample(m: Sample): Sample {
    Msg(SampleBody(PlainFloat(m.body.value), m.body.timestamp), m.unrecognized)
  }

  lemma {:induction false} SampleApplies(b: SampleBody)
    requires Int64(b.timestamp)
    ensures ApplyAll(SampleFields(b), ApplySample, EMPTY_SAMPLE) == Ok(SampleBody(PlainFloat(b.value), b.timestamp))
  {
    var t := Unsigned(b.timestamp);
    SignedRoundTrip(b.timestamp);
    var fs := OptVarint(2, t, []);
    ApplyFirst(FixedField(1, b.value), fs, ApplySample, EMPTY_SAMPLE);
    ApplyFirst(VarintField(2, t), [], ApplySample, SampleBody(PlainFloat(b.value), 0));
  }

  lemma {:induction false} SampleRoundTrip(m: Sample)
    requires GoodSample(m) && |EncodeSample(m)| < TWO_63
    ensures DecodeSample(EncodeSample(m)) == Ok(PlainSample(m))
  {
    SignedRoundTrip(m.body.timestamp);
    SampleApplies(m.body);
    MessageRoundTrip(SampleFields(m.body), m.unrecognized, SampleKinds, ApplySample, EMPTY_SAMPLE);
  }

  // ---------------------------------------------------------------- Exemplar

  datatype ExemplarBody = ExemplarBody(labels: seq<Label>, value: nat, timestamp: int)

  type Exemplar = Msg<ExemplarBody>

  const EMPTY_EXEMPLAR := ExemplarBody([], 0, 0)

  function ExemplarFields(b: ExemplarBody): seq<Field> {
    Repeated(1, b.labels, EncodeLabel, OptFloat(2, b.value, OptVarint(3, Unsigned(b.timestamp), [])))
  }

  function EncodeExemplar(m: Exemplar): Bytes {
    EncodeFields(ExemplarFields(m.body), m.unrecognized)
  }

  function ExemplarKinds(num: nat): Kind {
    if num == 1 then KBytes else if num == 2 then KFixed else if num == 3 then KVarint else KNone
  }

  function ApplyExemplar(b: ExemplarBody, f: Field): Result<ExemplarBody, Error> {
    match f
    case BytesField(_, data) =>
      (match DecodeLabel(data)
       case Err(e) => Err(e)
       case Ok(l) => Ok(b.(labels := b.labels + [l])))
    case FixedField(_, v) => Ok(b.(value := v))
    case VarintField(_, v) => Ok(b.(timestamp := Signed64(v)))
    case _ => Ok(b)
  }

  function DecodeExemplar(s: Bytes): Result<Exemplar, Error> {
    Decode(s, ExemplarKinds, ApplyExemplar, Msg(EMPTY_EXEMPLAR, []))
  }

  ghost predicate GoodExemplar(m: Exemplar) {
    && (forall l | l in m.body.labels :: GoodLabel(l))
    && Uint64(m.body.value) && Int64(m.body.timestamp) && WholeUnknown(m.unrecognized, ExemplarKinds)
  }

  function PlainExemplar(m: Exemplar): Exemplar {
    Msg(ExemplarBody(m.body.labels, PlainFloat(m.body.value), m.body.timestamp), m.unrecognized)
  }

  lemma {:induction false} ExemplarApplies(b: ExemplarBody)
    requires LabelsFit(b.labels) && Int64(b.timestamp)
    ensures ApplyAll(ExemplarFields(b), ApplyExemplar, EMPTY_EXEMPLAR) ==
            Ok(ExemplarBody(b.labels, PlainFloat(b.value), b.timestamp))
  {
    ExemplarLabelsApply(b.labels, OptFloat(2, b.value, OptVarint(3, Unsigned(b.timestamp), [])));
    ExemplarValueApplies(b.labels, b.value, b.timestamp);
  }

  lemma {:induction false} ExemplarValueApplies(labels: seq<Label>, value: nat, timestamp: int)
    requires Int64(timestamp)
    ensures ApplyAll(OptFloat(2, value, OptVarint(3, Unsigned(timestamp), [])), ApplyExemplar,
                     ExemplarBody(labels, 0, 0)) ==
            Ok(ExemplarBody(labels, PlainFloat(value), timestamp))
  {
    var t := Unsigned(timestamp);
    SignedRoundTrip(timestamp);
    ApplyFirst(FixedField(2, value), OptVarint(3, t, []), ApplyExemplar, ExemplarBody(labels, 0, 0));
    ApplyFirst(VarintField(3, t), [], ApplyExemplar, ExemplarBody(labels, PlainFloat(value), 0));
  }

  lemma {:induction false} ExemplarLabelsApply(labels: seq<Label>, fs: seq<Field>)
    requires LabelsFit(labels)
    ensures ApplyAll(Repeated(1, labels, EncodeLabel, fs), ApplyExemplar, EMPTY_EXEMPLAR) ==
            ApplyAll(fs, ApplyExemplar, ExemplarBody(labels, 0, 0))
  {
    var put := zs => ExemplarBody(zs, 0, 0);
    forall zs, l | l in labels
      ensures ApplyExemplar(put(zs), BytesField(1, EncodeLabel(l))) == Ok(put(zs + [Same(l)]))
    {
      LabelRoundTrip(l);
    }
    RepeatedApplies(1, labels, EncodeLabel, Same, fs, ApplyExemplar, put, []);
    SameMap(labels);
  }

  lemma {:induction false} ExemplarRoundTrip(m: Exemplar)
    requires GoodExemplar(m) && |EncodeExemplar(m)| < TWO_63
    ensures DecodeExemplar(EncodeExemplar(m)) == Ok(PlainExemplar(m))
  {
    var b := m.body;
    SignedRoundTrip(b.timestamp);
    var rest := OptFloat(2, b.value, OptVarint(3, Unsigned(b.timestamp), []));
    RepeatedIsGood(1, b.labels, EncodeLabel, rest, ExemplarKinds);
    RepeatedFits(1, b.labels, EncodeLabel, rest, m.unrecognized);
    ExemplarApplies(b);
    MessageRoundTrip(ExemplarFields(b), m.unrecognized, ExemplarKinds, ApplyExemplar, EMPTY_EXEMPLAR);
  }

  // ---------------------------------------------------------------- fields in general

  /** Labels that can be read back from a record. */
  ghost predicate LabelsFit(ls: seq<Label>) {
    forall l | l in ls :: GoodLabel(l) && |EncodeLabel(l)| < TWO_63
  }

  /** Fields that a message type expects, with numbers in range. */
  ghost predicate Fitting(fs: seq<Field>, kinds: Kinds) {
    forall i | 0 <= i < |fs| :: GoodValues(fs[i]) && kinds(fs[i].num) == KindOf(fs[i])
  }

  lemma FrontIsGood(f: Field, fs: seq<Field>, kinds: Kinds)
    requires GoodValues(f) && kinds(f.num) == KindOf(f) && Fitting(fs, kinds)
    ensures Fitting([f] + fs, kinds)
  {
  }

  lemma {:induction false} RepeatedIsGood<X>(num: nat, xs: seq<X>, enc: X -> Bytes, fs: seq<Field>, kinds: Kinds)
    requires 0 < num < TWO_31 && kinds(num) == KBytes && Fitting(fs, kinds)
    ensures Fitting(Repeated(num, xs, enc, fs), kinds)
  {
    if xs != [] { RepeatedIsGood(num, xs[1..], enc, fs, kinds); }
  }

  /** Each record is no longer than the message, and so are the fields after the records. */
  lemma {:induction false} RepeatedFits<X(!new)>(num: nat, xs: seq<X>, enc: X -> Bytes, fs: seq<Field>, post: Bytes)
    ensures forall x | x in xs :: |enc(x)| <= |EncodeFields(Repeated(num, xs, enc, fs), post)|
    ensures |EncodeFields(fs, post)| <= |EncodeFields(Repeated(num, xs, enc, fs), post)|
  {
    if xs != [] {
      RepeatedFits(num, xs[1..], enc, fs, post);
      FrontFits(BytesField(num, enc(xs[0])), Repeated(num, xs[1..], enc, fs), post);
    }
  }

  lemma {:induction false} FrontFits(f: Field, fs: seq<Field>, post: Bytes)
    ensures |EncodeFields(fs, post)| <= |EncodeFields([f] + fs, post)|
    ensures |EncodeField(f)| <= |EncodeFields([f] + fs, post)|
  {
    assert ([f] + fs)[1..] == fs;
  }

  function Same<X>(x: X): X {
    x
  }

  lemma SameMap<X>(xs: seq<X>)
    ensures [] + Map(Same, xs) == xs
  {
  }

  // ---------------------------------------------------------------- BucketSpan

  datatype BucketSpanBody = BucketSpanBody(offset: int, length: nat)

  type BucketSpan = Msg<BucketSpanBody>

  const EMPTY_SPAN := BucketSpanBody(0, 0)

  function BucketSpanFields(b: BucketSpanBody): seq<Field> {
    OptVarint(1, ZigZag(b.offset), OptVarint(2, b.length, []))
  }

  function EncodeBucketSpan(m: BucketSpan): Bytes {
    EncodeFields(BucketSpanFields(m.body), m.unrecognized)
  }

  function BucketSpanKinds(num: nat): Kind {
    if num == 1 || num == 2 then KVarint else KNone
  }

  function ApplyBucketSpan(b: BucketSpanBody, f: Field): Result<BucketSpanBody, Error> {
    match f
    case VarintField(num, v) => Ok(if num == 1 then b.(offset := UnZigZag(v % TWO_32)) else b.(length := v % TWO_32))
    case _ => Ok(b)
  }

  function DecodeBucketSpan(s: Bytes): Result<BucketSpan, Error> {
    Decode(s, BucketSpanKinds, ApplyBucketSpan, Msg(EMPTY_SPAN, []))
  }

  ghost predicate GoodBucketSpan(m: BucketSpan) {
    Int32(m.body.offset) && m.body.length < TWO_32 && WholeUnknown(m.unrecognized, BucketSpanKinds)
  }

  lemma {:induction false} BucketSpanApplies(b: BucketSpanBody)
    requires Int32(b.offset) && b.length < TWO_32
    ensures ApplyAll(BucketSpanFields(b), ApplyBucketSpan, EMPTY_SPAN) == Ok(b)
  {
    ZigZagRoundTrip(b.offset);
    var fs := OptVarint(2, b.length, []);
    ApplyFirst(VarintField(1, ZigZag(b.offset)), fs, ApplyBucketSpan, EMPTY_SPAN);
    ApplyFirst(VarintField(2, b.length), [], ApplyBucketSpan, BucketSpanBody(b.offset, 0));
  }

  lemma {:induction false} BucketSpanRoundTrip(m: BucketSpan)
    requires GoodBucketSpan(m) && |EncodeBucketSpan(m)| < TWO_63
    ensures DecodeBucketSpan(EncodeBucketSpan(m)) == Ok(m)
  {
    ZigZagRoundTrip(m.body.offset);
    BucketSpanApplies(m.body);
    MessageRoundTrip(BucketSpanFields(m.body), m.unrecognized, BucketSpanKinds, ApplyBucketSpan, EMPTY_SPAN);
  }

  // ---------------------------------------------------------------- MetricMetadata

  datatype MetadataBody = MetadataBody(typ: int, familyName: Bytes, help: Bytes, unit: Bytes)

  type MetricMetadata = Msg<MetadataBody>

  const EMPTY_METADATA := MetadataBody(0, [], [], [])

  function MetadataFields(b: MetadataBody): seq<Field> {
    OptVarint(1, Unsigned(b.typ), OptBytes(2, b.familyName, OptBytes(4, b.help, OptBytes(5, b.unit, []))))
  }

  function EncodeMetadata(m: MetricMetadata): Bytes {
    EncodeFields(MetadataFields(m.body), m.unrecognized)
  }

  function MetadataKinds(num: nat): Kind {
    if num == 1 then KVarint else if num == 2 || num == 4 || num == 5 then KBytes else KNone
  }

  function ApplyMetadata(b: MetadataBody, f: Field): Result<MetadataBody, Error> {
    match f
    case VarintField(_, v) => Ok(b.(typ := Signed32(v)))
    case BytesField(num, data) =>
      Ok(if num == 2 then b.(familyName := data) else if num == 4 then b.(help := data) else b.(unit := data))
    case _ => Ok(b)
  }

  function DecodeMetadata(s: Bytes): Result<MetricMetadata, Error> {
    Decode(s, MetadataKinds, ApplyMetadata, Msg(EMPTY_METADATA, []))
  }

  ghost predicate GoodMetadata(m: MetricMetadata) {
    Int32(m.body.typ) && WholeUnknown(m.unrecognized, MetadataKinds)
  }

  lemma {:induction false} MetadataApplies(b: MetadataBody)
    requires Int32(b.typ)
    ensures ApplyAll(MetadataFields(b), ApplyMetadata, EMPTY_METADATA) == Ok(b)
  {
    SignedRoundTrip(b.typ);
    var unit := OptBytes(5, b.unit, []);
    var help := OptBytes(4, b.help, unit);
    var name := OptBytes(2, b.familyName, help);
    ApplyFirst(VarintField(1, Unsigned(b.typ)), name, ApplyMetadata, EMPTY_METADATA);
    ApplyFirst(BytesField(2, b.familyName), help, ApplyMetadata, MetadataBody(b.typ, [], [], []));
    ApplyFirst(BytesField(4, b.help), unit, ApplyMetadata, MetadataBody(b.typ, b.familyName, [], []));
    ApplyFirst(BytesField(5, b.unit), [], ApplyMetadata, MetadataBody(b.typ, b.familyName, b.help, []));
  }

  lemma {:induction false} MetadataRoundTrip(m: MetricMetadata)
    requires GoodMetadata(m) && |EncodeMetadata(m)| < TWO_63
    ensures DecodeMetadata(EncodeMetadata(m)) == Ok(m)
  {
    var b := m.body;
    SignedRoundTrip(b.typ);
    MetadataApplies(b);
    var unit := OptBytes(5, b.unit, []);
    var help := OptBytes(4, b.help, unit);
    FrontIsGood(BytesField(5, b.unit), [], MetadataKinds);
    FrontIsGood(BytesField(4, b.help), unit, MetadataKinds);
    FrontIsGood(BytesField(2, b.familyName), help, MetadataKinds);
    FrontIsGood(VarintField(1, Unsigned(b.typ)), OptBytes(2, b.familyName, help), MetadataKinds);
    MessageRoundTrip(MetadataFields(m.body), m.unrecognized, MetadataKinds, ApplyMetadata, EMPTY_METADATA);
  }

  // ---------------------------------------------------------------- Histogram

  /** The oneof of a count: it is written even when zero. */
  datatype Count = NoCount | CountInt(n: nat) | CountFloat(bits: nat)

  datatype HistogramBody = HistogramBody(
    count: Count,
    sum: nat,
    schema: int,
    zeroThreshold: nat,
    zeroCount: Count,
    negativeSpans: seq<BucketSpan>,
    negativeDeltas: seq<int>,
    negativeCounts: seq<nat>,
    positiveSpans: seq<BucketSpan>,
    positiveDeltas: seq<int>,
    positiveCounts: seq<nat>,
    resetHint: int,
    timestamp: int,
    customValues: seq<nat>)

  type Histogram = Msg<HistogramBody>

  const EMPTY_HISTOGRAM := HistogramBody(NoCount, 0, 0, 0, NoCount, [], [], [], [], [], [], 0, 0, [])

  function CountFields(c: Count, intNum: nat, floatNum: nat, fs: seq<Field>): seq<Field> {
    match c
    case NoCount => fs
    case CountInt(n) => [VarintField(intNum, n)] + fs
    case CountFloat(bits) => [FixedField(floatNum, bits)] + fs
  }

  function TrailerFields(b: HistogramBody): seq<Field> {
    OptVarint(14, Unsigned(b.resetHint), OptVarint(15, Unsigned(b.timestamp), OptFixeds(16, b.customValues, [])))
  }

  function BucketFields(spans: seq<BucketSpan>, deltas: seq<int>, counts: seq<nat>, num: nat,
                        fs: seq<Field>): seq<Field> {
    Repeated(num, spans, EncodeBucketSpan, OptVarints(num + 1, Map(ZigZag, deltas), OptFixeds(num + 2, counts, fs)))
  }

  function PositiveFields(b: HistogramBody): seq<Field> {
    BucketFields(b.positiveSpans, b.positiveDeltas, b.positiveCounts, 11, TrailerFields(b))
  }

  function NegativeFields(b: HistogramBody): seq<Field> {
    BucketFields(b.negativeSpans, b.negativeDeltas, b.negativeCounts, 8, PositiveFields(b))
  }

  function HistogramFields(b: HistogramBody): seq<Field> {
    CountFields(b.count, 1, 2,
      OptFloat(3, b.sum,
               OptVarint(4, ZigZag(b.schema),
                         OptFloat(5, b.zeroThreshold, CountFields(b.zeroCount, 6, 7, NegativeFields(b))))))
  }

  function EncodeHistogram(m: Histogram): Bytes {
    EncodeFields(HistogramFields(m.body), m.unrecognized)
  }

  function HistogramKinds(num: nat): Kind {
    if num == 1 || num == 4 || num == 6 || num == 14 || num == 15 then KVarint
    else if num == 2 || num == 3 || num == 5 || num == 7 then KFixed
    else if num == 8 || num == 11 then KBytes
    else if num == 9 || num == 12 then KVarints
    else if num == 10 || num == 13 || num == 16 then KFixeds
    else KNone
  }

  function ApplyVarint(b: HistogramBody, num: nat, v: nat): HistogramBody {
    match num
    case 1 => b.(count := CountInt(v))
    case 4 => b.(schema := UnZigZag(v % TWO_32))
    case 6 => b.(zeroCount := CountInt(v))
    case 14 => b.(resetHint := Signed32(v))
    case _ => b.(timestamp := Signed64(v))
  }

  function ApplyFixed(b: HistogramBody, num: nat, v: nat): HistogramBody {
    match num
    case 2 => b.(count := CountFloat(v))
    case 3 => b.(sum := v)
    case 5 => b.(zeroThreshold := v)
    case _ => b.(zeroCount := CountFloat(v))
  }

  function ApplyHistogram(b: HistogramBody, f: Field): Result<HistogramBody, Error> {
    match f
    case VarintField(num, v) => Ok(ApplyVarint(b, num, v))
    case FixedField(num, v) => Ok(ApplyFixed(b, num, v))
    case BytesField(num, data) =>
      (match DecodeBucketSpan(data)
       case Err(e) => Err(e)
       case Ok(span) =>
         Ok(if num == 8 then b.(negativeSpans := b.negativeSpans + [span])
            else b.(positiveSpans := b.positiveSpans + [span])))
    case VarintsField(num, vs) =>
      Ok(if num == 9 then b.(negativeDeltas := b.negativeDeltas + Map(UnZigZag, vs))
         else b.(positiveDeltas := b.positiveDeltas + Map(UnZigZag, vs)))
    case FixedsField(num, vs) =>
      Ok(if num == 10 then b.(negativeCounts := b.negativeCounts + vs)
         else if num == 13 then b.(positiveCounts := b.positiveCounts + vs)
         else b.(customValues := b.customValues + vs))
    case UnknownField(_) => Ok(b)
  }

  function DecodeHistogram(s: Bytes): Result<Histogram, Error> {
    Decode(s, HistogramKinds, ApplyHistogram, Msg(EMPTY_HISTOGRAM, []))
  }

  predicate GoodCount(c: Count) {
    match c
    case NoCount => true
    case CountInt(n) => Uint64(n)
    case CountFloat(bits) => Uint64(bits)
  }

  ghost predicate GoodSpans(spans: seq<BucketSpan>) {
    forall x | x in spans :: GoodBucketSpan(x)
  }

  predicate Int64s(ns: seq<int>) {
    forall i | 0 <= i < |ns| :: Int64(ns[i])
  }

  ghost predicate GoodHistogram(m: Histogram) {
    var b := m.body;
    && GoodCount(b.count) && Uint64(b.sum) && Int32(b.schema) && Uint64(b.zeroThreshold) && GoodCount(b.zeroCount)
    && GoodSpans(b.negativeSpans) && Int64s(b.negativeDeltas) && Uint64s(b.negativeCounts)
    && GoodSpans(b.positiveSpans) && Int64s(b.positiveDeltas) && Uint64s(b.positiveCounts)
    && Int32(b.resetHint) && Int64(b.timestamp) && Uint64s(b.customValues)
    && WholeUnknown(m.unrecognized, HistogramKinds)
  }

  function PlainHistogramBody(b: HistogramBody): HistogramBody {
    b.(sum := PlainFloat(b.sum), zeroThreshold := PlainFloat(b.zeroThreshold))
  }

  function PlainHistogram(m: Histogram): Histogram {
    Msg(PlainHistogramBody(m.body), m.unrecognized)
  }

  lemma ZigZagMap(ns: seq<int>)
    ensures Map(UnZigZag, Map(ZigZag, ns)) == ns
  {
    forall i | 0 <= i < |ns| ensures UnZigZag(ZigZag(ns[i])) == ns[i] {
      ZigZagRoundTrip(ns[i]);
    }
  }

  /** Reset hint, timestamp and custom values. */
  lemma {:induction false} TrailerApplies(b: HistogramBody, c: HistogramBody)
    requires Int32(b.resetHint) && Int64(b.timestamp)
    requires c.resetHint == 0 && c.timestamp == 0 && c.customValues == []
    ensures ApplyAll(TrailerFields(b), ApplyHistogram, c) ==
            Ok(c.(resetHint := b.resetHint, timestamp := b.timestamp, customValues := b.customValues))
  {
    SignedRoundTrip(b.resetHint);
    SignedRoundTrip(b.timestamp);
    var custom := OptFixeds(16, b.customValues, []);
    var time := OptVarint(15, Unsigned(b.timestamp), custom);
    ApplyFirst(VarintField(14, Unsigned(b.resetHint)), time, ApplyHistogram, c);
    var c' := c.(resetHint := b.resetHint);
    ApplyFirst(VarintField(15, Unsigned(b.timestamp)), custom, ApplyHistogram, c');
    ApplyFirst(FixedsField(16, b.customValues), [], ApplyHistogram, c'.(timestamp := b.timestamp));
    NoneMore(b.customValues);
  }

  ghost predicate SpansFit(spans: seq<BucketSpan>) {
    forall x | x in spans :: GoodBucketSpan(x) && |EncodeBucketSpan(x)| < TWO_63
  }

  lemma {:induction false} PositiveSpansApply(spans: seq<BucketSpan>, fs: seq<Field>, c: HistogramBody)
    requires SpansFit(spans) && c.positiveSpans == []
    ensures ApplyAll(Repeated(11, spans, EncodeBucketSpan, fs), ApplyHistogram, c) ==
            ApplyAll(fs, ApplyHistogram, c.(positiveSpans := spans))
  {
    var put := (zs: seq<BucketSpan>) => c.(positiveSpans := zs);
    forall zs, x | x in spans
      ensures ApplyHistogram(put(zs), BytesField(11, EncodeBucketSpan(x))) == Ok(put(zs + [Same(x)]))
    {
      BucketSpanRoundTrip(x);
    }
    RepeatedApplies(11, spans, EncodeBucketSpan, Same, fs, ApplyHistogram, put, []);
    SameMap(spans);
  }

  lemma {:induction false} NegativeSpansApply(spans: seq<BucketSpan>, fs: seq<Field>, c: HistogramBody)
    requires SpansFit(spans) && c.negativeSpans == []
    ensures ApplyAll(Repeated(8, spans, EncodeBucketSpan, fs), ApplyHistogram, c) ==
            ApplyAll(fs, ApplyHistogram, c.(negativeSpans := spans))
  {
    var put := (zs: seq<BucketSpan>) => c.(negativeSpans := zs);
    forall zs, x | x in spans
      ensures ApplyHistogram(put(zs), BytesField(8, EncodeBucketSpan(x))) == Ok(put(zs + [Same(x)]))
    {
      BucketSpanRoundTrip(x);
    }
    RepeatedApplies(8, spans, EncodeBucketSpan, Same, fs, ApplyHistogram, put, []);
    SameMap(spans);
  }

  lemma {:induction false} PositiveApplies(b: HistogramBody, c: HistogramBody)
    requires SpansFit(b.positiveSpans) && c.positiveSpans == [] && c.positiveDeltas == [] && c.positiveCounts == []
    ensures ApplyAll(PositiveFields(b), ApplyHistogram, c) ==
            ApplyAll(TrailerFields(b), ApplyHistogram,
                     c.(positiveSpans := b.positiveSpans, positiveDeltas := b.positiveDeltas,
                        positiveCounts := b.positiveCounts))
  {
    var counts := OptFixeds(13, b.positiveCounts, TrailerFields(b));
    var deltas := OptVarints(12, Map(ZigZag, b.positiveDeltas), counts);
    PositiveSpansApply(b.positiveSpans, deltas, c);
    var c' := c.(positiveSpans := b.positiveSpans);
    ApplyFirst(VarintsField(12, Map(ZigZag, b.positiveDeltas)), counts, ApplyHistogram, c');
    ZigZagMap(b.positiveDeltas);
    NoneMore(b.positiveDeltas);
    ApplyFirst(FixedsField(13, b.positiveCounts), TrailerFields(b), ApplyHistogram,
               c'.(positiveDeltas := b.positiveDeltas));
    NoneMore(b.positiveCounts);
  }

  lemma {:induction false} NegativeApplies(b: HistogramBody, c: HistogramBody)
    requires SpansFit(b.negativeSpans) && c.negativeSpans == [] && c.negativeDeltas == [] && c.negativeCounts == []
    ensures ApplyAll(NegativeFields(b), ApplyHistogram, c) ==
            ApplyAll(PositiveFields(b), ApplyHistogram,
                     c.(negativeSpans := b.negativeSpans, negativeDeltas := b.negativeDeltas,
                        negativeCounts := b.negativeCounts))
  {
    var counts := OptFixeds(10, b.negativeCounts, PositiveFields(b));
    var deltas := OptVarints(9, Map(ZigZag, b.negativeDeltas), counts);
    NegativeSpansApply(b.negativeSpans, deltas, c);
    var c' := c.(negativeSpans := b.negativeSpans);
    ApplyFirst(VarintsField(9, Map(ZigZag, b.negativeDeltas)), counts, ApplyHistogram, c');
    ZigZagMap(b.negativeDeltas);
    NoneMore(b.negativeDeltas);
    ApplyFirst(FixedsField(10, b.negativeCounts), PositiveFields(b), ApplyHistogram,
               c'.(negativeDeltas := b.negativeDeltas));
    NoneMore(b.negativeCounts);
  }

  lemma {:induction false} CountApplies(c: HistogramBody, count: Count, fs: seq<Field>)
    requires c.count == NoCount
    ensures ApplyAll(CountFields(count, 1, 2, fs), ApplyHistogram, c) ==
            ApplyAll(fs, ApplyHistogram, c.(count := count))
  {
    match count
    case NoCount =>
    case CountInt(n) => ApplyFirst(VarintField(1, n), fs, ApplyHistogram, c);
    case CountFloat(bits) => ApplyFirst(FixedField(2, bits), fs, ApplyHistogram, c);
  }

  lemma {:induction false} ZeroCountApplies(c: HistogramBody, count: Count, fs: seq<Field>)
    requires c.zeroCount == NoCount
    ensures ApplyAll(CountFields(count, 6, 7, fs), ApplyHistogram, c) ==
            ApplyAll(fs, ApplyHistogram, c.(zeroCount := count))
  {
    match count
    case NoCount =>
    case CountInt(n) => ApplyFirst(VarintField(6, n), fs, ApplyHistogram, c);
    case CountFloat(bits) => ApplyFirst(FixedField(7, bits), fs, ApplyHistogram, c);
  }

  lemma {:induction false} SumApplies(c: HistogramBody, bits: nat, fs: seq<Field>)
    requires c.sum == 0
    ensures ApplyAll(OptFloat(3, bits, fs), ApplyHistogram, c) ==
            ApplyAll(fs, ApplyHistogram, c.(sum := PlainFloat(bits)))
  {
    ApplyFirst(FixedField(3, bits), fs, ApplyHistogram, c);
  }

  lemma {:induction false} SchemaApplies(c: HistogramBody, schema: int, fs: seq<Field>)
    requires c.schema == 0 && Int32(schema)
    ensures ApplyAll(OptVarint(4, ZigZag(schema), fs), ApplyHistogram, c) ==
            ApplyAll(fs, ApplyHistogram, c.(schema := schema))
  {
    ZigZagRoundTrip(schema);
    ApplyFirst(VarintField(4, ZigZag(schema)), fs, ApplyHistogram, c);
  }

  lemma {:induction false} ThresholdApplies(c: HistogramBody, bits: nat, fs: seq<Field>)
    requires c.zeroThreshold == 0
    ensures ApplyAll(OptFloat(5, bits, fs), ApplyHistogram, c) ==
            ApplyAll(fs, ApplyHistogram, c.(zeroThreshold := PlainFloat(bits)))
  {
    ApplyFirst(FixedField(5, bits), fs, ApplyHistogram, c);
  }

  function HeadOf(b: HistogramBody): HistogramBody {
    EMPTY_HISTOGRAM.(count := b.count, sum := PlainFloat(b.sum), schema := b.schema,
                     zeroThreshold := PlainFloat(b.zeroThreshold), zeroCount := b.zeroCount)
  }

  /** Count, sum, schema, zero threshold and zero count. */
  lemma {:induction false} HeadApplies(b: HistogramBody)
    requires Int32(b.schema)
    ensures ApplyAll(HistogramFields(b), ApplyHistogram, EMPTY_HISTOGRAM) ==
            ApplyAll(NegativeFields(b), ApplyHistogram, HeadOf(b))
  {
    var zero := CountFields(b.zeroCount, 6, 7, NegativeFields(b));
    var threshold := OptFloat(5, b.zeroThreshold, zero);
    var schema := OptVarint(4, ZigZag(b.schema), threshold);
    CountApplies(EMPTY_HISTOGRAM, b.count, OptFloat(3, b.sum, schema));
    var c := EMPTY_HISTOGRAM.(count := b.count);
    SumApplies(c, b.sum, schema);
    SchemaApplies(c.(sum := PlainFloat(b.sum)), b.schema, threshold);
    var c' := c.(sum := PlainFloat(b.sum), schema := b.schema);
    ThresholdApplies(c', b.zeroThreshold, zero);
    ZeroCountApplies(c'.(zeroThreshold := PlainFloat(b.zeroThreshold)), b.zeroCount, NegativeFields(b));
  }

  lemma {:induction false} HistogramApplies(b: HistogramBody)
    requires Int32(b.schema) && Int32(b.resetHint) && Int64(b.timestamp)
    requires SpansFit(b.negativeSpans) && SpansFit(b.positiveSpans)
    ensures ApplyAll(HistogramFields(b), ApplyHistogram, EMPTY_HISTOGRAM) == Ok(PlainHistogramBody(b))
  {
    HeadApplies(b);
    var c := HeadOf(b);
    NegativeApplies(b, c);
    var c' :=
        c.(negativeSpans := b.negativeSpans, negativeDeltas := b.negativeDeltas, negativeCounts := b.negativeCounts);
    PositiveApplies(b, c');
    TrailerApplies(b,
                   c'.(positiveSpans := b.positiveSpans, positiveDeltas := b.positiveDeltas,
                       positiveCounts := b.positiveCounts));
  }

  lemma {:induction false} TrailerIsGood(b: HistogramBody)
    requires Int32(b.resetHint) && Int64(b.timestamp) && Uint64s(b.customValues)
    ensures Fitting(TrailerFields(b), HistogramKinds)
  {
    SignedRoundTrip(b.resetHint);
    SignedRoundTrip(b.timestamp);
    var custom := OptFixeds(16, b.customValues, []);
    FrontIsGood(FixedsField(16, b.customValues), [], HistogramKinds);
    FrontIsGood(VarintField(15, Unsigned(b.timestamp)), custom, HistogramKinds);
    FrontIsGood(VarintField(14, Unsigned(b.resetHint)), OptVarint(15, Unsigned(b.timestamp), custom), HistogramKinds);
  }

  lemma {:induction false} BucketsAreGood(spans: seq<BucketSpan>, deltas: seq<int>, counts: seq<nat>, num: nat,
                                          fs: seq<Field>)
    requires Int64s(deltas) && Uint64s(counts) && (num == 8 || num == 11) && Fitting(fs, HistogramKinds)
    ensures Fitting(BucketFields(spans, deltas, counts, num, fs), HistogramKinds)
  {
    var zs := Map(ZigZag, deltas);
    forall i | 0 <= i < |zs| ensures zs[i] < TWO_64 {
      ZigZagRoundTrip(deltas[i]);
    }
    var rest := OptFixeds(num + 2, counts, fs);
    FrontIsGood(FixedsField(num + 2, counts), fs, HistogramKinds);
    FrontIsGood(VarintsField(num + 1, zs), rest, HistogramKinds);
    RepeatedIsGood(num, spans, EncodeBucketSpan, OptVarints(num + 1, zs, rest), HistogramKinds);
  }

  lemma {:induction false} CountIsGood(c: Count, intNum: nat, floatNum: nat, fs: seq<Field>)
    requires GoodCount(c) && HistogramKinds(intNum) == KVarint && HistogramKinds(floatNum) == KFixed
    requires Fitting(fs, HistogramKinds)
    ensures Fitting(CountFields(c, intNum, floatNum, fs), HistogramKinds)
  {
    match c
    case NoCount =>
    case CountInt(n) => FrontIsGood(VarintField(intNum, n), fs, HistogramKinds);
    case CountFloat(bits) => FrontIsGood(FixedField(floatNum, bits), fs, HistogramKinds);
  }

  lemma {:induction false} HistogramIsGood(m: Histogram)
    requires GoodHistogram(m)
    ensures Fitting(HistogramFields(m.body), HistogramKinds)
  {
    var b := m.body;
    TrailerIsGood(b);
    BucketsAreGood(b.positiveSpans, b.positiveDeltas, b.positiveCounts, 11, TrailerFields(b));
    BucketsAreGood(b.negativeSpans, b.negativeDeltas, b.negativeCounts, 8, PositiveFields(b));
    ZigZagRoundTrip(b.schema);
    var zero := CountFields(b.zeroCount, 6, 7, NegativeFields(b));
    CountIsGood(b.zeroCount, 6, 7, NegativeFields(b));
    var threshold := OptFloat(5, b.zeroThreshold, zero);
    FrontIsGood(FixedField(5, b.zeroThreshold), zero, HistogramKinds);
    var schema := OptVarint(4, ZigZag(b.schema), threshold);
    FrontIsGood(VarintField(4, ZigZag(b.schema)), threshold, HistogramKinds);
    FrontIsGood(FixedField(3, b.sum), schema, HistogramKinds);
    CountIsGood(b.count, 1, 2, OptFloat(3, b.sum, schema));
  }

  /** The spans are no longer than the histogram. */
  lemma {:induction false} SpansAreShort(b: HistogramBody, post: Bytes)
    ensures forall x | x in b.negativeSpans :: |EncodeBucketSpan(x)| <= |EncodeFields(HistogramFields(b), post)|
    ensures forall x | x in b.positiveSpans :: |EncodeBucketSpan(x)| <= |EncodeFields(HistogramFields(b), post)|
  {
    var counts := OptFixeds(13, b.positiveCounts, TrailerFields(b));
    RepeatedFits(11, b.positiveSpans, EncodeBucketSpan, OptVarints(12, Map(ZigZag, b.positiveDeltas), counts), post);
    var counts' := OptFixeds(10, b.negativeCounts, PositiveFields(b));
    var deltas' := OptVarints(9, Map(ZigZag, b.negativeDeltas), counts');
    FrontFits(FixedsField(10, b.negativeCounts), PositiveFields(b), post);
    FrontFits(VarintsField(9, Map(ZigZag, b.negativeDeltas)), counts', post);
    RepeatedFits(8, b.negativeSpans, EncodeBucketSpan, deltas', post);
    HeadFits(b, post);
  }

  lemma {:induction false} HeadFits(b: HistogramBody, post: Bytes)
    ensures |EncodeFields(NegativeFields(b), post)| <= |EncodeFields(HistogramFields(b), post)|
  {
    var zero := CountFields(b.zeroCount, 6, 7, NegativeFields(b));
    CountFits(b.zeroCount, 6, 7, NegativeFields(b), post);
    var threshold := OptFloat(5, b.zeroThreshold, zero);
    FrontFits(FixedField(5, b.zeroThreshold), zero, post);
    var schema := OptVarint(4, ZigZag(b.schema), threshold);
    FrontFits(VarintField(4, ZigZag(b.schema)), threshold, post);
    FrontFits(FixedField(3, b.sum), schema, post);
    CountFits(b.count, 1, 2, OptFloat(3, b.sum, schema), post);
  }

  lemma {:induction false} CountFits(c: Count, intNum: nat, floatNum: nat, fs: seq<Field>, post: Bytes)
    ensures |EncodeFields(fs, post)| <= |EncodeFields(CountFields(c, intNum, floatNum, fs), post)|
  {
    match c
    case NoCount =>
    case CountInt(n) => FrontFits(VarintField(intNum, n), fs, post);
    case CountFloat(bits) => FrontFits(FixedField(floatNum, bits), fs, post);
  }

  lemma {:induction false} HistogramRoundTrip(m: Histogram)
    requires GoodHistogram(m) && |EncodeHistogram(m)| < TWO_63
    ensures DecodeHistogram(EncodeHistogram(m)) == Ok(PlainHistogram(m))
  {
    HistogramIsGood(m);
    SpansAreShort(m.body, m.unrecognized);
    HistogramApplies(m.body);
    MessageRoundTrip(HistogramFields(m.body), m.unrecognized, HistogramKinds, ApplyHistogram, EMPTY_HISTOGRAM);
  }

  // ---------------------------------------------------------------- TimeSeries

  datatype TimeSeriesBody = TimeSeriesBody(labels: seq<Label>, samples: seq<Sample>, exemplars: seq<Exemplar>,
                                           histograms: seq<Histogram>)

  type TimeSeries = Msg<TimeSeriesBody>

  const EMPTY_TIME_SERIES := TimeSeriesBody([], [], [], [])

  function TimeSeriesFields(b: TimeSeriesBody): seq<Field> {
    Repeated(1, b.labels, EncodeLabel,
      Repeated(2, b.samples, EncodeSample,
               Repeated(3, b.exemplars, EncodeExemplar, Repeated(4, b.histograms, EncodeHistogram, []))))
  }

  function EncodeTimeSeries(m: TimeSeries): Bytes {
    EncodeFields(TimeSeriesFields(m.body), m.unrecognized)
  }

  function TimeSeriesKinds(num: nat): Kind {
    if 1 <= num <= 4 then KBytes else KNone
  }

  function ApplyTimeSeries(b: TimeSeriesBody, f: Field): Result<TimeSeriesBody, Error> {
    if !f.BytesField? then Ok(b)
    else if f.num == 1 then
      (match DecodeLabel(f.data)
       case Err(e) => Err(e)
       case Ok(x) => Ok(b.(labels := b.labels + [x])))
    else if f.num == 2 then
      (match DecodeSample(f.data)
       case Err(e) => Err(e)
       case Ok(x) => Ok(b.(samples := b.samples + [x])))
    else if f.num == 3 then
      (match DecodeExemplar(f.data)
       case Err(e) => Err(e)
       case Ok(x) => Ok(b.(exemplars := b.exemplars + [x])))
    else
      match DecodeHistogram(f.data)
      case Err(e) => Err(e)
      case Ok(x) => Ok(b.(histograms := b.histograms + [x]))
  }

  function DecodeTimeSeries(s: Bytes): Result<TimeSeries, Error> {
    Decode(s, TimeSeriesKinds, ApplyTimeSeries, Msg(EMPTY_TIME_SERIES, []))
  }

  ghost predicate GoodTimeSeries(m: TimeSeries) {
    var b := m.body;
    && (forall x | x in b.labels :: GoodLabel(x))
    && (forall x | x in b.samples :: GoodSample(x))
    && (forall x | x in b.exemplars :: GoodExemplar(x))
    && (forall x | x in b.histograms :: GoodHistogram(x))
    && WholeUnknown(m.unrecognized, TimeSeriesKinds)
  }

  function PlainTimeSeriesBody(b: TimeSeriesBody): TimeSeriesBody {
    TimeSeriesBody(b.labels, Map(PlainSample, b.samples), Map(PlainExemplar, b.exemplars),
                   Map(PlainHistogram, b.histograms))
  }

  function PlainTimeSeries(m: TimeSeries): TimeSeries {
    Msg(PlainTimeSeriesBody(m.body), m.unrecognized)
  }

  lemma {:induction false} TimeSeriesLabelsApply(xs: seq<Label>, fs: seq<Field>)
    requires LabelsFit(xs)
    ensures ApplyAll(Repeated(1, xs, EncodeLabel, fs), ApplyTimeSeries, EMPTY_TIME_SERIES) ==
            ApplyAll(fs, ApplyTimeSeries, TimeSeriesBody(xs, [], [], []))
  {
    var put := zs => TimeSeriesBody(zs, [], [], []);
    forall zs, x | x in xs ensures ApplyTimeSeries(put(zs), BytesField(1, EncodeLabel(x))) == Ok(put(zs + [Same(x)])) {
      LabelRoundTrip(x);
    }
    RepeatedApplies(1, xs, EncodeLabel, Same, fs, ApplyTimeSeries, put, []);
    SameMap(xs);
  }

  lemma {:induction false} SamplesApply(labels: seq<Label>, xs: seq<Sample>, fs: seq<Field>)
    requires forall x | x in xs :: GoodSample(x) && |EncodeSample(x)| < TWO_63
    ensures ApplyAll(Repeated(2, xs, EncodeSample, fs), ApplyTimeSeries, TimeSeriesBody(labels, [], [], [])) ==
            ApplyAll(fs, ApplyTimeSeries, TimeSeriesBody(labels, Map(PlainSample, xs), [], []))
  {
    var put := zs => TimeSeriesBody(labels, zs, [], []);
    forall zs, x | x in xs
      ensures ApplyTimeSeries(put(zs), BytesField(2, EncodeSample(x))) == Ok(put(zs + [PlainSample(x)]))
    {
      SampleRoundTrip(x);
    }
    RepeatedApplies(2, xs, EncodeSample, PlainSample, fs, ApplyTimeSeries, put, []);
    NoneMore(Map(PlainSample, xs));
  }

  lemma {:induction false} ExemplarsApply(labels: seq<Label>, samples: seq<Sample>, xs: seq<Exemplar>, fs: seq<Field>)
    requires forall x | x in xs :: GoodExemplar(x) && |EncodeExemplar(x)| < TWO_63
    ensures ApplyAll(Repeated(3, xs, EncodeExemplar, fs), ApplyTimeSeries, TimeSeriesBody(labels, samples, [], [])) ==
            ApplyAll(fs, ApplyTimeSeries, TimeSeriesBody(labels, samples, Map(PlainExemplar, xs), []))
  {
    var put := zs => TimeSeriesBody(labels, samples, zs, []);
    forall zs, x | x in xs
      ensures ApplyTimeSeries(put(zs), BytesField(3, EncodeExemplar(x))) == Ok(put(zs + [PlainExemplar(x)]))
    {
      ExemplarRoundTrip(x);
    }
    RepeatedApplies(3, xs, EncodeExemplar, PlainExemplar, fs, ApplyTimeSeries, put, []);
    NoneMore(Map(PlainExemplar, xs));
  }

  lemma {:induction false} HistogramsApply(b: TimeSeriesBody, xs: seq<Histogram>)
    requires (forall x | x in xs :: GoodHistogram(x) && |EncodeHistogram(x)| < TWO_63) && b.histograms == []
    ensures ApplyAll(Repeated(4, xs, EncodeHistogram, []), ApplyTimeSeries, b) ==
            Ok(b.(histograms := Map(PlainHistogram, xs)))
  {
    var put := zs => b.(histograms := zs);
    forall zs, x | x in xs
      ensures ApplyTimeSeries(put(zs), BytesField(4, EncodeHistogram(x))) == Ok(put(zs + [PlainHistogram(x)]))
    {
      HistogramRoundTrip(x);
    }
    RepeatedApplies(4, xs, EncodeHistogram, PlainHistogram, [], ApplyTimeSeries, put, []);
    NoneMore(Map(PlainHistogram, xs));
  }

  /** Every record of a time series can be read back. */
  ghost predicate RecordsFit(b: TimeSeriesBody) {
    && LabelsFit(b.labels)
    && (forall x | x in b.samples :: GoodSample(x) && |EncodeSample(x)| < TWO_63)
    && (forall x | x in b.exemplars :: GoodExemplar(x) && |EncodeExemplar(x)| < TWO_63)
    && (forall x | x in b.histograms :: GoodHistogram(x) && |EncodeHistogram(x)| < TWO_63)
  }

  lemma {:induction false} TimeSeriesApplies(b: TimeSeriesBody)
    requires RecordsFit(b)
    ensures ApplyAll(TimeSeriesFields(b), ApplyTimeSeries, EMPTY_TIME_SERIES) == Ok(PlainTimeSeriesBody(b))
  {
    var histograms := Repeated(4, b.histograms, EncodeHistogram, []);
    var exemplars := Repeated(3, b.exemplars, EncodeExemplar, histograms);
    TimeSeriesLabelsApply(b.labels, Repeated(2, b.samples, EncodeSample, exemplars));
    SamplesApply(b.labels, b.samples, exemplars);
    ExemplarsApply(b.labels, Map(PlainSample, b.samples), b.exemplars, histograms);
    HistogramsApply(TimeSeriesBody(b.labels, Map(PlainSample, b.samples), Map(PlainExemplar, b.exemplars), []),
                    b.histograms);
  }

  lemma {:induction false} TimeSeriesRecordsFit(m: TimeSeries)
    requires GoodTimeSeries(m) && |EncodeTimeSeries(m)| < TWO_63
    ensures RecordsFit(m.body) && Fitting(TimeSeriesFields(m.body), TimeSeriesKinds)
  {
    var b := m.body;
    var histograms := Repeated(4, b.histograms, EncodeHistogram, []);
    var exemplars := Repeated(3, b.exemplars, EncodeExemplar, histograms);
    var samples := Repeated(2, b.samples, EncodeSample, exemplars);
    RepeatedFits(4, b.histograms, EncodeHistogram, [], m.unrecognized);
    RepeatedFits(3, b.exemplars, EncodeExemplar, histograms, m.unrecognized);
    RepeatedFits(2, b.samples, EncodeSample, exemplars, m.unrecognized);
    RepeatedFits(1, b.labels, EncodeLabel, samples, m.unrecognized);
    RepeatedIsGood(4, b.histograms, EncodeHistogram, [], TimeSeriesKinds);
    RepeatedIsGood(3, b.exemplars, EncodeExemplar, histograms, TimeSeriesKinds);
    RepeatedIsGood(2, b.samples, EncodeSample, exemplars, TimeSeriesKinds);
    RepeatedIsGood(1, b.labels, EncodeLabel, samples, TimeSeriesKinds);
  }

  lemma {:induction false} TimeSeriesRoundTrip(m: TimeSeries)
    requires GoodTimeSeries(m) && |EncodeTimeSeries(m)| < TWO_63
    ensures DecodeTimeSeries(EncodeTimeSeries(m)) == Ok(PlainTimeSeries(m))
  {
    TimeSeriesRecordsFit(m);
    TimeSeriesApplies(m.body);
    MessageRoundTrip(TimeSeriesFields(m.body), m.unrecognized, TimeSeriesKinds, ApplyTimeSeries, EMPTY_TIME_SERIES);
  }

  // ---------------------------------------------------------------- WriteRequest

  datatype WriteRequestBody = WriteRequestBody(timeseries: seq<TimeSeries>, metadata: seq<MetricMetadata>)

  type WriteRequest = Msg<WriteRequestBody>

  const EMPTY_WRITE_REQUEST := WriteRequestBody([], [])

  function WriteRequestFields(b: WriteRequestBody): seq<Field> {
    Repeated(1, b.timeseries, EncodeTimeSeries, Repeated(3, b.metadata, EncodeMetadata, []))
  }

  function EncodeWriteRequest(m: WriteRequest): Bytes {
    EncodeFields(WriteRequestFields(m.body), m.unrecognized)
  }

  function WriteRequestKinds(num: nat): Kind {
    if num == 1 || num == 3 then KBytes else KNone
  }

  function ApplyWriteRequest(b: WriteRequestBody, f: Field): Result<WriteRequestBody, Error> {
    if !f.BytesField? then Ok(b)
    else if f.num == 1 then
      (match DecodeTimeSeries(f.data)
       case Err(e) => Err(e)
       case Ok(x) => Ok(b.(timeseries := b.timeseries + [x])))
    else
      match DecodeMetadata(f.data)
      case Err(e) => Err(e)
      case Ok(x) => Ok(b.(metadata := b.metadata + [x]))
  }

  function DecodeWriteRequest(s: Bytes): Result<WriteRequest, Error> {
    Decode(s, WriteRequestKinds, ApplyWriteRequest, Msg(EMPTY_WRITE_REQUEST, []))
  }

  ghost predicate GoodWriteRequest(m: WriteRequest) {
    && (forall x | x in m.body.timeseries :: GoodTimeSeries(x))
    && (forall x | x in m.body.metadata :: GoodMetadata(x))
    && WholeUnknown(m.unrecognized, WriteRequestKinds)
  }

  function PlainWriteRequest(m: WriteRequest): WriteRequest {
    Msg(WriteRequestBody(Map(PlainTimeSeries, m.body.timeseries), m.body.metadata), m.unrecognized)
  }

  lemma {:induction false} TimeSeriesListApplies(xs: seq<TimeSeries>, fs: seq<Field>)
    requires forall x | x in xs :: GoodTimeSeries(x) && |EncodeTimeSeries(x)| < TWO_63
    ensures ApplyAll(Repeated(1, xs, EncodeTimeSeries, fs), ApplyWriteRequest, EMPTY_WRITE_REQUEST) ==
            ApplyAll(fs, ApplyWriteRequest, WriteRequestBody(Map(PlainTimeSeries, xs), []))
  {
    var put := zs => WriteRequestBody(zs, []);
    forall zs, x | x in xs
      ensures ApplyWriteRequest(put(zs), BytesField(1, EncodeTimeSeries(x))) == Ok(put(zs + [PlainTimeSeries(x)]))
    {
      TimeSeriesRoundTrip(x);
    }
    RepeatedApplies(1, xs, EncodeTimeSeries, PlainTimeSeries, fs, ApplyWriteRequest, put, []);
    NoneMore(Map(PlainTimeSeries, xs));
  }

  lemma {:induction false} MetadataListApplies(timeseries: seq<TimeSeries>, xs: seq<MetricMetadata>)
    requires forall x | x in xs :: GoodMetadata(x) && |EncodeMetadata(x)| < TWO_63
    ensures ApplyAll(Repeated(3, xs, EncodeMetadata, []), ApplyWriteRequest, WriteRequestBody(timeseries, [])) ==
            Ok(WriteRequestBody(timeseries, xs))
  {
    var put := zs => WriteRequestBody(timeseries, zs);
    forall zs, x | x in xs
      ensures ApplyWriteRequest(put(zs), BytesField(3, EncodeMetadata(x))) == Ok(put(zs + [Same(x)]))
    {
      MetadataRoundTrip(x);
    }
    RepeatedApplies(3, xs, EncodeMetadata, Same, [], ApplyWriteRequest, put, []);
    SameMap(xs);
  }

  /** Reading back a request gives the request, but for negative zeros. */
  lemma {:induction false} WriteRequestRoundTrip(m: WriteRequest)
    requires GoodWriteRequest(m) && |EncodeWriteRequest(m)| < TWO_63
    ensures DecodeWriteRequest(EncodeWriteRequest(m)) == Ok(PlainWriteRequest(m))
  {
    var b := m.body;
    var metadata := Repeated(3, b.metadata, EncodeMetadata, []);
    RepeatedFits(3, b.metadata, EncodeMetadata, [], m.unrecognized);
    RepeatedFits(1, b.timeseries, EncodeTimeSeries, metadata, m.unrecognized);
    RepeatedIsGood(3, b.metadata, EncodeMetadata, [], WriteRequestKinds);
    RepeatedIsGood(1, b.timeseries, EncodeTimeSeries, metadata, WriteRequestKinds);
    TimeSeriesListApplies(b.timeseries, metadata);
    MetadataListApplies(Map(PlainTimeSeries, b.timeseries), b.metadata);
    MessageRoundTrip(WriteRequestFields(b), m.unrecognized, WriteRequestKinds, ApplyWriteRequest, EMPTY_WRITE_REQUEST);
  }

  // ---------------------------------------------------------------- when exactly it is the same

  predicate NotNegativeZero(bits: nat) {
    bits != TWO_63
  }

  /** No singular float of the request is a negative zero. */
  predicate NoNegativeZero(m: WriteRequest) {
    forall i | 0 <= i < |m.body.timeseries| :: TimeSeriesHasNone(m.body.timeseries[i].body)
  }

  predicate TimeSeriesHasNone(b: TimeSeriesBody) {
    && (forall i | 0 <= i < |b.samples| :: NotNegativeZero(b.samples[i].body.value))
    && (forall i | 0 <= i < |b.exemplars| :: NotNegativeZero(b.exemplars[i].body.value))
    && (forall i | 0 <= i < |b.histograms| :: HistogramHasNone(b.histograms[i].body))
  }

  predicate HistogramHasNone(b: HistogramBody) {
    NotNegativeZero(b.sum) && NotNegativeZero(b.zeroThreshold)
  }

  lemma PlainTimeSeriesSame(m: TimeSeries)
    ensures PlainTimeSeries(m) == m <==> TimeSeriesHasNone(m.body)
  {
    var b := m.body;
    assert Map(PlainSample, b.samples) == b.samples <==>
           forall i | 0 <= i < |b.samples| :: PlainSample(b.samples[i]) == b.samples[i];
    assert Map(PlainExemplar, b.exemplars) == b.exemplars <==>
           forall i | 0 <= i < |b.exemplars| :: PlainExemplar(b.exemplars[i]) == b.exemplars[i];
    assert Map(PlainHistogram, b.histograms) == b.histograms <==>
           forall i | 0 <= i < |b.histograms| :: PlainHistogram(b.histograms[i]) == b.histograms[i];
  }

  /** The round trip gives the same request exactly when no singular float is a negative zero. */
  lemma {:induction false} RoundTripExactly(m: WriteRequest)
    requires GoodWriteRequest(m) && |EncodeWriteRequest(m)| < TWO_63
    ensures DecodeWriteRequest(EncodeWriteRequest(m)) == Ok(m) <==> NoNegativeZero(m)
  {
    WriteRequestRoundTrip(m);
    var xs := m.body.timeseries;
    forall i | 0 <= i < |xs| ensures PlainTimeSeries(xs[i]) == xs[i] <==> TimeSeriesHasNone(xs[i].body) {
      PlainTimeSeriesSame(xs[i]);
    }
    assert Map(PlainTimeSeries, xs) == xs <==> forall i | 0 <= i < |xs| :: PlainTimeSeries(xs[i]) == xs[i];
  }

  /** One series with one sample at time 0. */
  function OneSample(value: nat): WriteRequest {
    Msg(WriteRequestBody([Msg(TimeSeriesBody([], [Msg(SampleBody(value, 0), [])], [], []), [])], []), [])
  }

  lemma OneRecord(num: nat, data: Bytes)
    requires 8 * num + 2 < 128 && |data| < 128
    ensures EncodeFields([BytesField(num, data)], []) == [8 * num + 2, |data|] + data
  {
    var f := BytesField(num, data);
    assert EncodeField(f) == [8 * num + 2] + ([|data|] + data);
    assert [f][1..] == [];
    assert EncodeFields([f], []) == EncodeField(f) + [];
  }

  /** A sample of -0 is left out like one of 0, and read back as 0. */
  lemma NegativeZeroIsLost()
    ensures var m := OneSample(TWO_63);
            && GoodWriteRequest(m) && EncodeWriteRequest(m) == [10, 2, 18, 0] && m != OneSample(0)
            && DecodeWriteRequest(EncodeWriteRequest(m)) == Ok(OneSample(0))
  {
    var m := OneSample(TWO_63);
    var series := m.body.timeseries[0];
    var sample := series.body.samples[0];
    assert EncodeSample(sample) == [];
    assert TimeSeriesFields(series.body) == [BytesField(2, [])] by {
      assert Repeated(2, series.body.samples, EncodeSample, []) == [BytesField(2, [])] + [];
    }
    OneRecord(2, []);
    assert EncodeTimeSeries(series) == [18, 0];
    assert WriteRequestFields(m.body) == [BytesField(1, [18, 0])];
    OneRecord(1, [18, 0]);
    assert GoodTimeSeries(series);
    WriteRequestRoundTrip(m);
    assert Map(PlainSample, series.body.samples) == [Msg(SampleBody(0, 0), [])];
    assert Map(PlainTimeSeries, m.body.timeseries) == OneSample(0).body.timeseries;
  }
}
