/** Decoding of metric samples: single ones in live frames, lists of them in stored reports. */
module MetricDecoding {
  import opened Options
  import opened Protobuf

  const MAX_LIVE_METRIC_BYTES: nat := 2_048
  const MAX_REPORT_SAMPLES: nat := 60
  const SAMPLES_FIELD: nat := 5

  /** Fields 1 to 12 of a sample; 11 and 12 may be absent. */
  type Values = v: seq<Option<nat>> | |v| == 12
    witness [None, None, None, None, None, None, None, None, None, None, None, None]

  const ABSENT: Values :=
    [Some(0), Some(0), Some(0), Some(0), Some(0), Some(0), Some(0), Some(0), Some(0), Some(0), None, None]

  datatype Sample = Sample(
    observedAt: nat, cpuPermille: nat,
    memoryUsed: nat, memoryTotal: nat, storageUsed: nat, storageTotal: nat,
    networkRxBps: nat, networkTxBps: nat, networkRxTotal: nat, networkTxTotal: nat,
    load1m: Option<nat>, uptime: Option<nat>)

  function OrZero(value: Option<nat>): nat { if value.None? then 0 else value.value }

  function SampleOf(v: Values): Sample {
    Sample(OrZero(v[0]), OrZero(v[1]), OrZero(v[2]), OrZero(v[3]), OrZero(v[4]), OrZero(v[5]),
           OrZero(v[6]), OrZero(v[7]), OrZero(v[8]), OrZero(v[9]), v[10], v[11])
  }

  predicate IsLive(s: Sample) { s.observedAt > 0 && s.cpuPermille <= 1_000 }

  predicate IsStored(s: Sample) {
    && IsLive(s)
    && !(s.memoryTotal > 0 && s.memoryUsed > s.memoryTotal)
    && !(s.storageTotal > 0 && s.storageUsed > s.storageTotal)
  }

  // ---- meaning: a fold over the fields ------------------------------------------------------

  predicate Known(f: Field) { 1 <= f.number <= 12 }

  predicate Acceptable(f: Field) {
    Known(f) ==> f.payload.Number? && f.payload.value <= MAX_SAFE
  }

  /** A known field sets its value, any other changes nothing. */
  function Apply(v: Values, f: Field): Values
    requires Acceptable(f)
  {
    if Known(f) then v[f.number - 1 := Some(f.payload.value)] else v
  }

  /** None when a known field has the wrong kind or is too large. */
  function ApplyAll(v: Values, fields: seq<Field>): Option<Values>
    decreases |fields|
  {
    if fields == [] then Some(v)
    else if !Acceptable(fields[0]) then None
    else ApplyAll(Apply(v, fields[0]), fields[1..])
  }

  function ValuesIn(v: Values, bytes: seq<Byte>, offset: nat): Option<Values> {
    match Fields(bytes, offset)
    case None => None
    case Some(fields) => ApplyAll(v, fields)
  }

  /** One field further: what the fields say from here on. */
  lemma OneField(v: Values, bytes: seq<Byte>, offset: nat)
    requires offset < |bytes|
    ensures var r := ReadField(bytes, offset);
      ValuesIn(v, bytes, offset)
      == if r.None? || !Acceptable(r.value.value) then None else ValuesIn(Apply(v, r.value.value), bytes, r.value.next)
  {
    hide ReadField, Apply;
    var r := ReadField(bytes, offset);
    if r.Some? {
      FieldMovesOn(bytes, offset);
      var rest := Fields(bytes, r.value.next);
      if rest.Some? {
        assert ([r.value.value] + rest.value)[1..] == rest.value;
      } else if Acceptable(r.value.value) {
      }
    }
  }

  /** The loop of `decodeLiveMetricSample` and `decodeMetricSample` over one message. */
  method DecodeValues(bytes: seq<Byte>) returns (result: Option<Values>)
    ensures result == ValuesIn(ABSENT, bytes, 0)
  {
    hide ReadPayload, Varint, Apply, ApplyAll, ValuesIn;
    var values := new Option<nat>[12](i => if 0 <= i < 10 then Some(0) else None);
    var offset: nat, ok := 0, true;
    assert values[..] == ABSENT;
    while offset < |bytes| && ok
      invariant offset <= |bytes|
      invariant ok ==> ValuesIn(values[..], bytes, offset) == ValuesIn(ABSENT, bytes, 0)
      invariant !ok ==> ValuesIn(ABSENT, bytes, 0) == None
      decreases |bytes| - offset, ok
    {
      ghost var before: Values := values[..];
      OneField(before, bytes, offset);
      FieldMovesOn(bytes, offset);
      ok := false;
      var tag := ReadVarint(bytes, offset);
      if tag.Some? {
        var field, wireType := tag.value.value / 8, tag.value.value % 8;
        if 1 <= field <= 12 {
          NumberPayload(bytes, tag.value.next, wireType);
          if wireType == 0 {
            var decoded := ReadVarint(bytes, tag.value.next);
            if decoded.Some? && decoded.value.value <= MAX_SAFE {
              values[field - 1] := Some(decoded.value.value);
              offset, ok := decoded.value.next, true;
              Applied(before, Field(field, Number(decoded.value.value)));
              assert values[..] == before[field - 1 := Some(decoded.value.value)];
            }
          }
        } else {
          var next := SkipField(bytes, tag.value.next, wireType);
          if next.Some? {
            Unchanged(before, Field(field, ReadPayload(bytes, tag.value.next, wireType).value.value));
            offset, ok := next.value, true;
          }
        }
      }
    }
    NoFieldsLeft(values[..], bytes, offset);
    if ok { result := Some(values[..]); } else { result := None; }
  }

  lemma NumberPayload(bytes: seq<Byte>, offset: nat, wireType: nat)
    ensures wireType == 0 ==>
      ReadPayload(bytes, offset, 0) == match Varint(bytes, offset)
                                       case None => None
                                       case Some(r) => Some(Read(Number(r.value), r.next))
    ensures wireType != 0 && ReadPayload(bytes, offset, wireType).Some? ==>
      !ReadPayload(bytes, offset, wireType).value.value.Number?
  {
  }

  lemma Applied(v: Values, f: Field)
    requires Acceptable(f) && Known(f)
    ensures Apply(v, f) == v[f.number - 1 := Some(f.payload.value)]
  {
  }

  lemma Unchanged(v: Values, f: Field)
    requires !Known(f)
    ensures Acceptable(f) && Apply(v, f) == v
  {
  }

  lemma NoFieldsLeft(v: Values, bytes: seq<Byte>, offset: nat)
    ensures offset >= |bytes| ==> ValuesIn(v, bytes, offset) == Some(v)
  {
  }

  // ---- what decoding gives ------------------------------------------------------------------

  /** The value of the last field with a number. */
  function LastValue(fields: seq<Field>, number: nat): Option<nat> {
    if fields == [] then None
    else
      var last := fields[|fields| - 1];
      if last.number == number && last.payload.Number? then Some(last.payload.value)
      else LastValue(fields[..|fields| - 1], number)
  }

  lemma {:induction false} ApplyOneMore(v: Values, fields: seq<Field>, f: Field)
    ensures ApplyAll(v, fields + [f])
         == match ApplyAll(v, fields)
            case None => None
            case Some(w) => if Acceptable(f) then Some(Apply(w, f)) else None
    decreases |fields|
  {
    hide Apply, Acceptable;
    if fields == [] {
      assert [f][1..] == [] && fields + [f] == [f];
    } else {
      assert (fields + [f])[0] == fields[0] && (fields + [f])[1..] == fields[1..] + [f];
      if Acceptable(fields[0]) { ApplyOneMore(Apply(v, fields[0]), fields[1..], f); }
    }
  }

  /** A written message is accepted exactly when every known field is a number in the safe range;
      then each value is that of the last field with its number, or the one for absent. */
  lemma {:induction false} LastValueWins(fields: seq<Field>)
    requires forall f | f in fields :: Encodable(f)
    ensures var read := ValuesIn(ABSENT, Encode(fields), 0);
      && (read.Some? <==> forall f | f in fields :: Acceptable(f))
      && (read.Some? ==> forall i | 0 <= i < 12 ::
            read.value[i] == if LastValue(fields, i + 1).Some? then LastValue(fields, i + 1) else ABSENT[i])
    decreases |fields|
  {
    hide Fields, Encode, Encodable, LastValue, ApplyAll;
    FieldsInvert([], fields);
    assert [] + Encode(fields) == Encode(fields);
    AppliedLast(fields);
  }

  lemma {:induction false} AppliedLast(fields: seq<Field>)
    ensures var read := ApplyAll(ABSENT, fields);
      && (read.Some? <==> forall f | f in fields :: Acceptable(f))
      && (read.Some? ==> forall i | 0 <= i < 12 ::
            read.value[i] == if LastValue(fields, i + 1).Some? then LastValue(fields, i + 1) else ABSENT[i])
    decreases |fields|
  {
    if fields != [] {
      var init, last := fields[..|fields| - 1], fields[|fields| - 1];
      assert fields == init + [last];
      AppliedLast(init);
      ApplyOneMore(ABSENT, init, last);
    }
  }

  /** A field the reader does not know, put in anywhere, changes nothing. */
  lemma UnknownFieldsDoNotMatter(before: seq<Field>, unknown: Field, after: seq<Field>)
    requires forall f | f in before + [unknown] + after :: Encodable(f)
    requires !Known(unknown)
    ensures ValuesIn(ABSENT, Encode(before + [unknown] + after), 0) == ValuesIn(ABSENT, Encode(before + after), 0)
  {
    hide Fields, Encode, Encodable, ApplyAll;
    forall f | f in before + after ensures Encodable(f) {
      assert f in before + [unknown] + after;
    }
    FieldsInvert([], before + [unknown] + after);
    FieldsInvert([], before + after);
    assert [] + Encode(before + [unknown] + after) == Encode(before + [unknown] + after);
    assert [] + Encode(before + after) == Encode(before + after);
    Skipped(ABSENT, before, unknown, after);
  }

  lemma {:induction false} Skipped(v: Values, before: seq<Field>, unknown: Field, after: seq<Field>)
    requires !Known(unknown)
    ensures ApplyAll(v, before + [unknown] + after) == ApplyAll(v, before + after)
    decreases |before|
  {
    var long, short := before + [unknown] + after, before + after;
    if before == [] {
      assert long[0] == unknown && long[1..] == after && short == after;
    } else {
      assert long[0] == short[0] == before[0];
      assert long[1..] == before[1..] + [unknown] + after && short[1..] == before[1..] + after;
      if Acceptable(before[0]) { Skipped(Apply(v, before[0]), before[1..], unknown, after); }
    }
  }

  // ---- the writer ---------------------------------------------------------------------------

  function ValuesOf(s: Sample): Values {
    [Some(s.observedAt), Some(s.cpuPermille), Some(s.memoryUsed), Some(s.memoryTotal), Some(s.storageUsed),
     Some(s.storageTotal), Some(s.networkRxBps), Some(s.networkTxBps), Some(s.networkRxTotal), Some(s.networkTxTotal),
     s.load1m, s.uptime]
  }

  predicate InRange(s: Sample) {
    forall i | 0 <= i < 12 :: ValuesOf(s)[i].Some? ==> ValuesOf(s)[i].value <= MAX_SAFE
  }

  /** A plain field is left out when it is zero, an optional one when it is absent. */
  predicate IsWritten(v: Values, i: nat)
    requires i < 12
  {
    v[i].Some? && (i >= 10 || v[i].value != 0)
  }

  function WriteFrom(v: Values, i: nat): seq<Field>
    requires i <= 12
    decreases 12 - i
  {
    if i == 12 then []
    else if IsWritten(v, i) then [Field(i + 1, Number(v[i].value))] + WriteFrom(v, i + 1)
    else WriteFrom(v, i + 1)
  }

  function EncodeSample(s: Sample): seq<Byte> { Encode(WriteFrom(ValuesOf(s), 0)) }

  lemma {:induction false} WrittenApplies(v: Values, w: Values, i: nat)
    requires i <= 12 && forall k | 0 <= k < 12 :: v[k].Some? ==> v[k].value <= MAX_SAFE
    ensures forall f | f in WriteFrom(v, i) :: Encodable(f)
    ensures var read := ApplyAll(w, WriteFrom(v, i));
      read.Some? && forall k | 0 <= k < 12 :: read.value[k] == if k >= i && IsWritten(v, k) then v[k] else w[k]
    decreases 12 - i
  {
    if i < 12 {
      var rest := WriteFrom(v, i + 1);
      if IsWritten(v, i) {
        var f := Field(i + 1, Number(v[i].value));
        assert WriteFrom(v, i)[0] == f && WriteFrom(v, i)[1..] == rest;
        WrittenApplies(v, Apply(w, f), i + 1);
      } else {
        WrittenApplies(v, w, i + 1);
      }
    }
  }

  lemma WrittenIsWhole(v: Values, u: Values)
    requires forall k | 0 <= k < 10 :: v[k].Some?
    requires forall k | 0 <= k < 12 :: u[k] == if IsWritten(v, k) then v[k] else ABSENT[k]
    ensures u == v
  {
  }

  /** Reader and writer undo each other for every sample in the safe range. */
  lemma SampleInverts(s: Sample)
    requires InRange(s)
    ensures ValuesIn(ABSENT, EncodeSample(s), 0) == Some(ValuesOf(s)) && SampleOf(ValuesOf(s)) == s
  {
    hide Fields, Encode, WriteFrom, ApplyAll, IsWritten;
    var v := ValuesOf(s);
    WrittenApplies(v, ABSENT, 0);
    FieldsInvert([], WriteFrom(v, 0));
    assert [] + EncodeSample(s) == EncodeSample(s);
    WrittenIsWhole(v, ApplyAll(ABSENT, WriteFrom(v, 0)).value);
  }

  // ---- single samples -----------------------------------------------------------------------

  function LiveSample(bytes: seq<Byte>): Option<Sample> {
    if |bytes| == 0 || |bytes| > MAX_LIVE_METRIC_BYTES then None
    else
      var values := ValuesIn(ABSENT, bytes, 0);
      if values.Some? && IsLive(SampleOf(values.value)) then Some(SampleOf(values.value)) else None
  }

  /** `decodeLiveMetricSample`. */
  method DecodeLiveMetricSample(bytes: seq<Byte>) returns (sample: Option<Sample>)
    ensures sample == LiveSample(bytes)
  {
    hide ValuesIn;
    sample := None;
    if |bytes| != 0 && |bytes| <= MAX_LIVE_METRIC_BYTES {
      var values := DecodeValues(bytes);
      if values.Some? {
        var s := SampleOf(values.value);
        if s.observedAt > 0 && s.cpuPermille <= 1_000 { sample := Some(s); }
      }
    }
  }

  function StoredSample(bytes: seq<Byte>): Option<Sample> {
    var values := ValuesIn(ABSENT, bytes, 0);
    if values.Some? && IsStored(SampleOf(values.value)) then Some(SampleOf(values.value)) else None
  }

  /** `decodeMetricSample`. */
  method DecodeMetricSample(bytes: seq<Byte>) returns (sample: Option<Sample>)
    ensures sample == StoredSample(bytes)
  {
    hide ValuesIn;
    sample := None;
    var values := DecodeValues(bytes);
    if values.Some? {
      var s := SampleOf(values.value);
      if s.observedAt > 0 && s.cpuPermille <= 1_000
         && (s.memoryTotal == 0 || s.memoryUsed <= s.memoryTotal)
         && (s.storageTotal == 0 || s.storageUsed <= s.storageTotal)
      {
        sample := Some(s);
      }
    }
  }

  /** What a stored sample must be like: taken after 1970, a CPU share of at most a thousand, and no
      more memory or storage used than there is, where the total is known. */
  predicate IsPlausible(s: Sample) {
    && 1 <= s.observedAt && s.cpuPermille <= 1000
    && (s.memoryTotal == 0 || s.memoryUsed <= s.memoryTotal)
    && (s.storageTotal == 0 || s.storageUsed <= s.storageTotal)
  }

  /** A written sample is read back as stored exactly when it is plausible. */
  lemma StoredSampleIff(s: Sample)
    requires InRange(s)
    ensures StoredSample(EncodeSample(s)) == if IsPlausible(s) then Some(s) else None
  {
    hide ValuesIn, EncodeSample, ValuesOf, SampleOf, InRange;
    SampleInverts(s);
  }

  /** A written sample is read back as live exactly when it was taken after 1970 and has a CPU share
      of at most a thousand; its length is never in the way. */
  lemma LiveSampleIff(s: Sample)
    requires InRange(s)
    ensures LiveSample(EncodeSample(s)) == if 1 <= s.observedAt && s.cpuPermille <= 1000 then Some(s) else None
  {
    hide ValuesIn, SampleOf, WriteFrom, Encode, ValuesOf;
    SampleInverts(s);
    WrittenIsShort(ValuesOf(s), 0);
    if s.observedAt >= 1 { TimeIsWritten(s); }
  }

  function Power128(n: nat): nat { if n == 0 then 1 else 128 * Power128(n - 1) }

  lemma {:induction false} VarintIsShort(value: nat, n: nat)
    requires n > 0 && value < Power128(n)
    ensures |EncodeVarint(value)| <= n
    decreases n
  {
    if value >= 128 { VarintIsShort(value / 128, n - 1); }
  }

  lemma SafeIsShort(value: nat)
    requires value <= MAX_SAFE
    ensures |EncodeVarint(value)| <= 8
  {
    assert Power128(2) == 0x4000;
    assert Power128(4) == 0x1000_0000;
    assert Power128(8) == 0x100_0000_0000_0000 by {
      assert Power128(6) == 0x400_0000_0000;
    }
    VarintIsShort(value, 8);
  }

  /** Every field takes a byte for its number and eight at most for its value. */
  lemma {:induction false} WrittenIsShort(v: Values, i: nat)
    requires i <= 12 && forall k | 0 <= k < 12 :: v[k].Some? ==> v[k].value <= MAX_SAFE
    ensures |Encode(WriteFrom(v, i))| <= 9 * (12 - i)
    decreases 12 - i
  {
    hide EncodeVarint;
    if i < 12 {
      WrittenIsShort(v, i + 1);
      if IsWritten(v, i) {
        TagIsShort(i + 1);
        SafeIsShort(v[i].value);
        var f := Field(i + 1, Number(v[i].value));
        assert WriteFrom(v, i)[0] == f && WriteFrom(v, i)[1..] == WriteFrom(v, i + 1);
      }
    }
  }

  lemma TagIsShort(number: nat)
    requires 1 <= number <= 12
    ensures |EncodeVarint(number * 8)| == 1
  {
  }

  lemma TimeIsWritten(s: Sample)
    requires s.observedAt >= 1
    ensures EncodeSample(s) != []
  {
    hide EncodeVarint;
    var fields := WriteFrom(ValuesOf(s), 0);
    assert fields[0] == Field(1, Number(s.observedAt));
  }

  // ---- reports ------------------------------------------------------------------------------

  /** The samples among the fields of a report, at most sixty. */
  function Collect(fields: seq<Field>, samples: seq<Sample>): Option<seq<Sample>>
    decreases |fields|
  {
    if fields == [] then Some(samples)
    else if fields[0].number != SAMPLES_FIELD then Collect(fields[1..], samples)
    else if !fields[0].payload.Bytes? then None
    else
      match StoredSample(fields[0].payload.bytes)
      case None => None
      case Some(s) => if |samples| >= MAX_REPORT_SAMPLES then None else Collect(fields[1..], samples + [s])
  }

  function CollectIn(bytes: seq<Byte>, offset: nat, samples: seq<Sample>): Option<seq<Sample>> {
    match Fields(bytes, offset)
    case None => None
    case Some(fields) => Collect(fields, samples)
  }

  function ReportSamples(bytes: seq<Byte>): Option<seq<Sample>> {
    var samples := CollectIn(bytes, 0, []);
    if samples == Some([]) then None else samples
  }

  /** What one field does to the list. */
  function CollectField(f: Field, samples: seq<Sample>): Option<seq<Sample>> {
    if f.number != SAMPLES_FIELD then Some(samples)
    else if !f.payload.Bytes? then None
    else
      match StoredSample(f.payload.bytes)
      case None => None
      case Some(s) => if |samples| >= MAX_REPORT_SAMPLES then None else Some(samples + [s])
  }

  lemma OneReportField(bytes: seq<Byte>, offset: nat, samples: seq<Sample>)
    requires offset < |bytes|
    ensures var r := ReadField(bytes, offset);
      CollectIn(bytes, offset, samples)
      == if r.None? || CollectField(r.value.value, samples).None? then None
         else CollectIn(bytes, r.value.next, CollectField(r.value.value, samples).value)
  {
    hide ReadField, StoredSample;
    var r := ReadField(bytes, offset);
    if r.Some? {
      FieldMovesOn(bytes, offset);
      var rest := Fields(bytes, r.value.next);
      if rest.Some? { assert ([r.value.value] + rest.value)[1..] == rest.value; }
    }
  }

  /** `decodeCompressedMachineSamples` on the inflated bytes. */
  method DecodeMachineSamples(bytes: seq<Byte>) returns (result: Option<seq<Sample>>)
    ensures result == ReportSamples(bytes)
  {
    hide ReadPayload, Varint, StoredSample, CollectIn;
    var samples: seq<Sample>, offset: nat, ok := [], 0, true;
    while offset < |bytes| && ok
      invariant offset <= |bytes|
      invariant ok ==> CollectIn(bytes, offset, samples) == CollectIn(bytes, 0, [])
      invariant !ok ==> CollectIn(bytes, 0, []) == None
      decreases |bytes| - offset, ok
    {
      OneReportField(bytes, offset, samples);
      FieldMovesOn(bytes, offset);
      ok := false;
      var tag := ReadVarint(bytes, offset);
      if tag.Some? {
        var field, wireType := tag.value.value / 8, tag.value.value % 8;
        if field == SAMPLES_FIELD {
          BytesPayload(bytes, tag.value.next, wireType);
          if wireType == 2 {
            var length := ReadVarint(bytes, tag.value.next);
            if length.Some? && length.value.value <= MAX_SAFE && length.value.next + length.value.value <= |bytes| {
              var end := length.value.next + length.value.value;
              var sample := DecodeMetricSample(bytes[length.value.next..end]);
              if sample.Some? && |samples| < MAX_REPORT_SAMPLES {
                samples, offset, ok := samples + [sample.value], end, true;
              }
            }
          }
        } else {
          var next := SkipField(bytes, tag.value.next, wireType);
          if next.Some? { offset, ok := next.value, true; }
        }
      }
    }
    NoReportFieldsLeft(bytes, offset, samples);
    result := if ok && samples != [] then Some(samples) else None;
  }

  lemma BytesPayload(bytes: seq<Byte>, offset: nat, wireType: nat)
    ensures wireType == 2 ==>
      var length := Varint(bytes, offset);
      ReadPayload(bytes, offset, 2)
      == if length.None? || length.value.value > MAX_SAFE || length.value.next + length.value.value > |bytes| then None
         else Some(Read(Bytes(bytes[length.value.next..length.value.next + length.value.value]),
                        length.value.next + length.value.value))
    ensures wireType != 2 && ReadPayload(bytes, offset, wireType).Some? ==>
      !ReadPayload(bytes, offset, wireType).value.value.Bytes?
  {
  }

  lemma NoReportFieldsLeft(bytes: seq<Byte>, offset: nat, samples: seq<Sample>)
    ensures offset >= |bytes| ==> CollectIn(bytes, offset, samples) == Some(samples)
  {
  }

  /** The fields carry these samples, in this order, among any others. */
  ghost predicate Carries(fields: seq<Field>, samples: seq<Sample>)
    decreases |fields|
  {
    if fields == [] then samples == []
    else if fields[0].number != SAMPLES_FIELD then Carries(fields[1..], samples)
    else samples != [] && fields[0].payload == Bytes(EncodeSample(samples[0])) && Carries(fields[1..], samples[1..])
  }

  lemma {:induction false} CarriedAreCollected(fields: seq<Field>, samples: seq<Sample>, before: seq<Sample>)
    requires Carries(fields, samples) && |before| <= MAX_REPORT_SAMPLES
    requires forall s | s in samples :: InRange(s)
    ensures Collect(fields, before)
         == if |before| + |samples| <= 60 && forall s | s in samples :: IsPlausible(s) then Some(before + samples) else None
    decreases |fields|
  {
    hide EncodeSample, ValuesIn, SampleOf, ValuesOf, IsPlausible;
    if fields == [] {
      assert before + samples == before;
    } else if fields[0].number != SAMPLES_FIELD {
      CarriedAreCollected(fields[1..], samples, before);
    } else {
      StoredSampleIff(samples[0]);
      assert samples == [samples[0]] + samples[1..];
      if IsPlausible(samples[0]) && |before| < MAX_REPORT_SAMPLES {
        CarriedAreCollected(fields[1..], samples[1..], before + [samples[0]]);
        assert before + [samples[0]] + samples[1..] == before + samples;
      }
    }
  }

  /** A report is read exactly when it was written with one to sixty plausible samples, and then as
      the list of these, whatever other fields stand between them. */
  lemma ReportInverts(fields: seq<Field>, samples: seq<Sample>)
    requires (forall f | f in fields :: Encodable(f)) && Carries(fields, samples)
    requires forall s | s in samples :: InRange(s)
    ensures ReportSamples(Encode(fields))
         == if 1 <= |samples| <= 60 && forall s | s in samples :: IsPlausible(s) then Some(samples) else None
  {
    hide Fields, Encode, Encodable, Collect, Carries, IsPlausible;
    FieldsInvert([], fields);
    assert [] + Encode(fields) == Encode(fields);
    CarriedAreCollected(fields, samples, []);
    assert [] + samples == samples;
  }
}
