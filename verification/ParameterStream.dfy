/** The stream of raw parameter records a snapshot carries. */
module ParameterStream {
  import opened Bytes
  import opened Parsing
  import opened Wrappers

  const PARAMETER_STREAM_VERSION: nat := 1
  const STREAM_HEADER_SIZE: nat := 12
  const RECORD_HEADER_SIZE: nat := 24
  const MAX_RECORDS: nat := 512
  const MAX_RECORD_PAYLOAD: nat := 8192
  const MAX_STREAM_BYTES: nat := 1024 * 1024
  const STREAM_MAGIC: Data := [0x56, 0x34, 0x41, 0x50]

  type I32 = n: int | -0x8000_0000 <= n < 0x8000_0000

  datatype RawParamRecord = RawParamRecord(
    param: I32,
    val1: I32,
    val2: I32,
    val3: I32,
    arrSize: U32,
    payload: Data)

  /** What a parameter id carries: nothing, `arrSize` floats, or two banks of `arrSize` floats. */
  datatype Shape = Scalar | OneBank | TwoBanks

  /** The numbering of the parameters, of which nothing is assumed. */
  type Catalog = I32 -> Shape

  datatype StreamError =
    | PayloadTooLong | ArraySizeTooLarge | ScalarWithArray | NeedsTooMuch | PayloadMismatch
    | TooManyRecords | StreamTooLarge | StreamTruncated | BadStreamMagic | UnsupportedStream | ReservedNotZero
    | RecordTruncated | PayloadTruncated | StreamTrailing

  datatype Check = Pass | Fail(error: StreamError)

  function RequiredPayloadBytes(catalog: Catalog, param: I32, arrSize: U32): nat {
    match catalog(param)
    case Scalar => 0
    case OneBank => arrSize * 4
    case TwoBanks => arrSize * 2 * 4
  }

  function RecordCheck(catalog: Catalog, r: RawParamRecord): Check {
    if |r.payload| > MAX_RECORD_PAYLOAD then Fail(PayloadTooLong)
    else if r.arrSize > MAX_RECORD_PAYLOAD then Fail(ArraySizeTooLarge)
    else
      var required := RequiredPayloadBytes(catalog, r.param, r.arrSize);
      if required == 0 then
        if r.payload != [] || r.arrSize != 0 then Fail(ScalarWithArray) else Pass
      else if required > MAX_RECORD_PAYLOAD then Fail(NeedsTooMuch)
      else if |r.payload| != required then Fail(PayloadMismatch)
      else Pass
  }

  /** A record passes exactly when the payload is what the driver reads for it, no more and no less; a scalar has no
      array size either. */
  lemma RecordCheckMeans(catalog: Catalog, r: RawParamRecord)
    ensures RecordCheck(catalog, r) == Pass <==>
              && |r.payload| == RequiredPayloadBytes(catalog, r.param, r.arrSize) <= MAX_RECORD_PAYLOAD
              && (catalog(r.param) == Scalar ==> r.arrSize == 0)
  {
  }

  // ---------------------------------------------------------------- what the driver reads of a record

  /** Where the driver finds float `i` of a bank: the banks lie one behind the other. */
  function FloatAt(arrSize: nat, bank: nat, i: nat): nat {
    4 * (bank * arrSize + i)
  }

  /** All four bytes of float `i` of the bank are there. */
  predicate HasFloat(r: RawParamRecord, bank: nat, i: nat) {
    FloatAt(r.arrSize, bank, i) + 3 < |r.payload|
  }

  predicate IsByteOf(arrSize: nat, j: nat, bank: nat, i: nat) {
    FloatAt(arrSize, bank, i) <= j <= FloatAt(arrSize, bank, i) + 3
  }

  /** Byte `j` belongs to a float of some bank. */
  ghost predicate IsReadAt(arrSize: nat, banks: nat, j: nat) {
    exists bank: nat, i: nat | bank < banks && i < arrSize :: IsByteOf(arrSize, j, bank, i)
  }

  /** The payload is `banks` banks of `arrSize` floats: they are all there, and every byte belongs to one of them. */
  ghost predicate HoldsBanks(r: RawParamRecord, banks: nat) {
    && (forall bank: nat, i: nat | bank < banks && i < r.arrSize :: HasFloat(r, bank, i))
    && (forall j: nat | j < |r.payload| :: IsReadAt(r.arrSize, banks, j))
  }

  /** The record is exactly what the driver reads for its parameter. */
  ghost predicate IsWhatIsRead(catalog: Catalog, r: RawParamRecord) {
    match catalog(r.param)
    case Scalar => r.payload == [] && r.arrSize == 0
    case OneBank => HoldsBanks(r, 1)
    case TwoBanks => HoldsBanks(r, 2)
  }

  lemma HoldsBanksIff(r: RawParamRecord, banks: nat)
    requires banks <= 2
    ensures HoldsBanks(r, banks) <==> |r.payload| == 4 * banks * r.arrSize
  {
    var size: nat := r.arrSize;
    if HoldsBanks(r, banks) {
      if banks > 0 && size > 0 {
        assert HasFloat(r, banks - 1, size - 1);
      }
      if r.payload != [] {
        assert IsReadAt(size, banks, |r.payload| - 1);
        LastIsRead(size, banks, |r.payload| - 1);
      }
    }
    if |r.payload| == 4 * banks * size {
      forall j: nat | j < |r.payload|
        ensures IsReadAt(size, banks, j)
      {
        AllAreRead(size, banks, j);
      }
    }
  }

  lemma LastIsRead(size: nat, banks: nat, j: nat)
    requires banks <= 2 && IsReadAt(size, banks, j)
    ensures j < 4 * banks * size
  {
  }

  lemma AllAreRead(size: nat, banks: nat, j: nat)
    requires banks <= 2 && j < 4 * banks * size
    ensures IsReadAt(size, banks, j)
  {
    if j < 4 * size {
      assert IsByteOf(size, j, 0, j / 4);
    } else {
      assert IsByteOf(size, j, 1, (j - 4 * size) / 4);
    }
  }

  /** The check passes exactly the records within the limit that are what the driver reads. */
  lemma ChecksWhatIsRead(catalog: Catalog, r: RawParamRecord)
    ensures RecordCheck(catalog, r) == Pass <==> |r.payload| <= 8192 && IsWhatIsRead(catalog, r)
  {
    HoldsBanksIff(r, 1);
    HoldsBanksIff(r, 2);
    hide HoldsBanks;
  }

  // ---------------------------------------------------------------- one record on the wire

  const RECORD_LAYOUT: Layout := [4, 4, 4, 4, 4, 4]

  /** Two's complement. */
  function Unsigned(n: I32): U32 {
    if n < 0 then n + 0x1_0000_0000 else n
  }

  function Signed(n: U32): I32 {
    if n < 0x8000_0000 then n else n - 0x1_0000_0000
  }

  function RecordFields(r: RawParamRecord): (values: seq<nat>)
    ensures |values| == |RECORD_LAYOUT|
  {
    [Unsigned(r.param), Unsigned(r.val1), Unsigned(r.val2), Unsigned(r.val3), r.arrSize, |r.payload|]
  }

  function PutRecord(r: RawParamRecord): Data {
    PutFields(RECORD_LAYOUT, RecordFields(r)) + r.payload
  }

  function RecordFrom(catalog: Catalog, v: seq<nat>, tail: Data): Parsed<RawParamRecord, StreamError>
    requires Fits(RECORD_LAYOUT, v)
  {
    if v[5] > MAX_RECORD_PAYLOAD then Refused(PayloadTooLong)
    else if |tail| < v[5] then Refused(PayloadTruncated)
    else
      WordSizes();
      var r := RawParamRecord(Signed(v[0]), Signed(v[1]), Signed(v[2]), Signed(v[3]), v[4], tail[..v[5]]);
      match RecordCheck(catalog, r)
      case Fail(error) => Refused(error)
      case Pass => Parsed(r, tail[v[5]..])
  }

  function ParseRecord(catalog: Catalog, bytes: Data): Parsed<RawParamRecord, StreamError> {
    if |bytes| < RECORD_HEADER_SIZE then Refused(RecordTruncated)
    else
      RecordWidth();
      PutGetFields(RECORD_LAYOUT, bytes[..RECORD_HEADER_SIZE]);
      RecordFrom(catalog, GetFields(RECORD_LAYOUT, bytes[..RECORD_HEADER_SIZE]), bytes[RECORD_HEADER_SIZE..])
  }

  lemma RecordWidth()
    ensures Width(RECORD_LAYOUT) == RECORD_HEADER_SIZE
  {
    WidthOfFour(4, 4, 4, 4);
    assert Width([4]) == 4 && Width([4, 4]) == 8;
    WidthAppend([4, 4, 4, 4], [4, 4]);
    assert RECORD_LAYOUT == [4, 4, 4, 4] + [4, 4];
  }

  predicate RecordOk(catalog: Catalog, r: RawParamRecord) {
    RecordCheck(catalog, r) == Pass
  }

  lemma RecordFromFields(catalog: Catalog, v: seq<nat>, tail: Data, r: RawParamRecord, rest: Data)
    requires Fits(RECORD_LAYOUT, v)
    ensures RecordFrom(catalog, v, tail) == Parsed(r, rest) <==>
              RecordOk(catalog, r) && v == RecordFields(r) && tail == r.payload + rest
  {
    hide RecordCheck;
    WordSizes();
    if RecordFrom(catalog, v, tail) == Parsed(r, rest) {
      assert v == RecordFields(r);
    }
    if RecordOk(catalog, r) && v == RecordFields(r) && tail == r.payload + rest {
      RecordCheckMeans(catalog, r);
      CutApart(r.payload, rest);
    }
  }

  /** A record is parsed off the front exactly when it passes the check and its wire form is there. */
  lemma ParsesRecord(catalog: Catalog, bytes: Data, r: RawParamRecord, rest: Data)
    ensures ParseRecord(catalog, bytes) == Parsed(r, rest) <==> RecordOk(catalog, r) && bytes == PutRecord(r) + rest
  {
    RecordWidth();
    hide Width;
    hide GetFields;
    hide PutFields;
    hide Fits;
    hide RecordFrom;
    hide RecordOk;
    if |bytes| >= RECORD_HEADER_SIZE {
      var head, tail := bytes[..RECORD_HEADER_SIZE], bytes[RECORD_HEADER_SIZE..];
      PutGetFields(RECORD_LAYOUT, head);
      RecordFromFields(catalog, GetFields(RECORD_LAYOUT, head), tail, r, rest);
      Associate(head, r.payload, rest);
      assert bytes == head + tail;
    }
    if RecordOk(catalog, r) && bytes == PutRecord(r) + rest {
      var fixed := PutFields(RECORD_LAYOUT, RecordFields(r));
      RecordFieldsFit(catalog, r);
      GetPutFields(RECORD_LAYOUT, RecordFields(r));
      Associate(fixed, r.payload, rest);
      CutApart(fixed, r.payload + rest);
      RecordFromFields(catalog, RecordFields(r), r.payload + rest, r, rest);
    }
  }

  lemma RecordFieldsFit(catalog: Catalog, r: RawParamRecord)
    requires RecordOk(catalog, r)
    ensures Fits(RECORD_LAYOUT, RecordFields(r))
  {
    WordSizes();
  }

  // ---------------------------------------------------------------- the stream on the wire

  function PutRecords(records: seq<RawParamRecord>): Data {
    PutMany(PutRecord, records)
  }

  function StreamHeader(count: U32): (bytes: Data)
    ensures |bytes| == STREAM_HEADER_SIZE
  {
    STREAM_MAGIC + PutU16(PARAMETER_STREAM_VERSION) + PutU16(0) + PutU32(count)
  }

  /** The encoder's first pass: every record is checked, and the running size with it. */
  function StreamSize(catalog: Catalog, records: seq<RawParamRecord>, total: nat): Result<nat, StreamError> {
    if records == [] then Ok(total)
    else
      match RecordCheck(catalog, records[0])
      case Fail(error) => Err(error)
      case Pass =>
        var next := total + RECORD_HEADER_SIZE + |records[0].payload|;
        if next > MAX_STREAM_BYTES then Err(StreamTooLarge) else StreamSize(catalog, records[1..], next)
  }

  function EncodedStream(catalog: Catalog, records: seq<RawParamRecord>): Result<Data, StreamError> {
    if |records| > MAX_RECORDS then Err(TooManyRecords)
    else
      match StreamSize(catalog, records, STREAM_HEADER_SIZE)
      case Err(error) => Err(error)
      case Ok(total) => Ok(StreamHeader(|records|) + PutRecords(records))
  }

  function DecodedStream(catalog: Catalog, bytes: Data): Result<seq<RawParamRecord>, StreamError> {
    if bytes == [] then Ok([])
    else if |bytes| > MAX_STREAM_BYTES then Err(StreamTooLarge)
    else if |bytes| < STREAM_HEADER_SIZE then Err(StreamTruncated)
    else if bytes[..4] != STREAM_MAGIC then Err(BadStreamMagic)
    else if ReadU16(bytes, 4) != PARAMETER_STREAM_VERSION then Err(UnsupportedStream)
    else if ReadU16(bytes, 6) != 0 then Err(ReservedNotZero)
    else if ReadU32(bytes, 8) > MAX_RECORDS then Err(TooManyRecords)
    else
      match ParseMany((b: Data) => ParseRecord(catalog, b), bytes[STREAM_HEADER_SIZE..], ReadU32(bytes, 8))
      case Refused(error) => Err(error)
      case Parsed(records, rest) => if rest != [] then Err(StreamTrailing) else Ok(records)
  }

  // ---------------------------------------------------------------- round trips

  ghost predicate AllRecordsOk(catalog: Catalog, records: seq<RawParamRecord>) {
    forall i | 0 <= i < |records| :: RecordOk(catalog, records[i])
  }

  lemma {:induction false} StreamSizeMeans(catalog: Catalog, records: seq<RawParamRecord>, total: nat, n: nat)
    requires total <= MAX_STREAM_BYTES
    ensures StreamSize(catalog, records, total) == Ok(n) <==>
              AllRecordsOk(catalog, records) && n == total + |PutRecords(records)| && n <= MAX_STREAM_BYTES
  {
    hide RecordCheck;
    if records != [] {
      var next := total + RECORD_HEADER_SIZE + |records[0].payload|;
      RecordWidth();
      assert |PutRecord(records[0])| == RECORD_HEADER_SIZE + |records[0].payload|;
      assert PutRecords(records) == PutRecord(records[0]) + PutRecords(records[1..]);
      assert AllRecordsOk(catalog, records) <==>
             RecordOk(catalog, records[0]) && AllRecordsOk(catalog, records[1..]) by {
        assert records == [records[0]] + records[1..];
      }
      if next <= MAX_STREAM_BYTES {
        StreamSizeMeans(catalog, records[1..], next, n);
      }
    }
  }

  lemma ParsesRecords(catalog: Catalog, bytes: Data, count: nat, records: seq<RawParamRecord>)
    ensures ParseMany((b: Data) => ParseRecord(catalog, b), bytes, count) == Parsed(records, []) <==>
              |records| == count && AllRecordsOk(catalog, records) && bytes == PutRecords(records)
  {
    hide ParseRecord;
    hide PutRecord;
    hide RecordOk;
    var parse, ok := (b: Data) => ParseRecord(catalog, b), (r: RawParamRecord) => RecordOk(catalog, r);
    forall b, r, after
      ensures ParsesTo(parse, b, r, after) <==> ok(r) && b == PutRecord(r) + after
    {
      ParsesRecord(catalog, b, r, after);
    }
    ParsesMany(parse, PutRecord, ok, bytes, count, records, []);
    assert PutRecords(records) + [] == PutRecords(records);
  }

  lemma ReadsStreamHeader(bytes: Data, count: U32)
    requires |bytes| >= STREAM_HEADER_SIZE
    ensures bytes[..STREAM_HEADER_SIZE] == StreamHeader(count) <==>
            && bytes[..4] == STREAM_MAGIC && ReadU16(bytes, 4) == PARAMETER_STREAM_VERSION
            && ReadU16(bytes, 6) == 0 && ReadU32(bytes, 8) == count
  {
    ReadsU16(bytes, 4, PARAMETER_STREAM_VERSION);
    ReadsU16(bytes, 6, 0);
    ReadsU32(bytes, 8, count);
    hide PutU16;
    hide PutU32;
    hide ReadU16;
    hide ReadU32;
    var head := bytes[..STREAM_HEADER_SIZE];
    assert head == bytes[..4] + bytes[4..6] + bytes[6..8] + bytes[8..12];
    CutsInFour(bytes[..4], bytes[4..6], bytes[6..8], bytes[8..12]);
    CutsInFour(STREAM_MAGIC, PutU16(PARAMETER_STREAM_VERSION), PutU16(0), PutU32(count));
  }

  lemma CutsInFour(a: Data, b: Data, c: Data, d: Data)
    ensures var all, i, j := a + b + c + d, |a| + |b|, |a| + |b| + |c|;
            all[..|a|] == a && all[|a|..i] == b && all[i..j] == c && all[j..] == d
  {
  }

  /** The decoder yields `records` exactly on what the encoder makes of them, and on nothing at all when there are
      none. */
  lemma DecodesExactlyEncodings(catalog: Catalog, bytes: Data, records: seq<RawParamRecord>)
    ensures DecodedStream(catalog, bytes) == Ok(records) <==>
              (bytes == [] && records == []) || EncodedStream(catalog, records) == Ok(bytes)
  {
    hide EncodedStream;
    hide DecodedStream;
    if EncodedStream(catalog, records) == Ok(bytes) {
      EncodedIsDecoded(catalog, bytes, records);
    }
    if bytes == [] {
      assert DecodedStream(catalog, bytes) == Ok([]) by { EmptyStream(catalog); }
    } else if DecodedStream(catalog, bytes) == Ok(records) {
      DecodedIsEncoded(catalog, bytes, records);
    }
  }

  lemma EmptyStream(catalog: Catalog)
    ensures DecodedStream(catalog, []) == Ok([])
  {
  }

  lemma EncodedIsDecoded(catalog: Catalog, bytes: Data, records: seq<RawParamRecord>)
    requires EncodedStream(catalog, records) == Ok(bytes)
    ensures DecodedStream(catalog, bytes) == Ok(records)
  {
    hide ParseMany;
    hide ReadU16;
    hide ReadU32;
    var header, tail := StreamHeader(|records|), PutRecords(records);
    CutApart(header, tail);
    StreamSizeMeans(catalog, records, STREAM_HEADER_SIZE, StreamSize(catalog, records, STREAM_HEADER_SIZE).value);
    hide StreamHeader;
    hide PutRecords;
    hide StreamSize;
    ReadsStreamHeader(bytes, |records|);
    ParsesRecords(catalog, tail, |records|, records);
  }

  lemma DecodedIsEncoded(catalog: Catalog, bytes: Data, records: seq<RawParamRecord>)
    requires bytes != [] && DecodedStream(catalog, bytes) == Ok(records)
    ensures EncodedStream(catalog, records) == Ok(bytes)
  {
    hide ParseMany;
    hide ReadU16;
    hide ReadU32;
    hide StreamHeader;
    hide PutRecords;
    hide StreamSize;
    var tail := bytes[STREAM_HEADER_SIZE..];
    ParsesRecords(catalog, tail, ReadU32(bytes, 8), records);
    ReadsStreamHeader(bytes, |records|);
    StreamSizeMeans(catalog, records, STREAM_HEADER_SIZE, |bytes|);
    assert bytes == bytes[..STREAM_HEADER_SIZE] + tail;
  }

  /** Every record that comes out of the decoder carries exactly the bytes the driver reads for it. */
  lemma DecodedRecordsAreComplete(catalog: Catalog, bytes: Data, k: nat)
    requires DecodedStream(catalog, bytes).Ok? && k < |DecodedStream(catalog, bytes).value|
    ensures var r := DecodedStream(catalog, bytes).value[k];
            && |r.payload| == RequiredPayloadBytes(catalog, r.param, r.arrSize) <= MAX_RECORD_PAYLOAD
            && (catalog(r.param) == Scalar ==> r.arrSize == 0)
            && IsWhatIsRead(catalog, r)
  {
    hide *;
    var records := DecodedStream(catalog, bytes).value;
    DecodesExactlyEncodings(catalog, bytes, records);
    EncodedRecordsOk(catalog, records);
    RecordOkAt(catalog, records, k);
    RecordCheckMeans(catalog, records[k]);
    PassesIsRead(catalog, records[k]);
  }

  lemma PassesIsRead(catalog: Catalog, r: RawParamRecord)
    requires RecordOk(catalog, r)
    ensures IsWhatIsRead(catalog, r)
  {
    ChecksWhatIsRead(catalog, r);
    hide RecordCheck;
  }

  lemma EncodedRecordsOk(catalog: Catalog, records: seq<RawParamRecord>)
    requires EncodedStream(catalog, records).Ok?
    ensures AllRecordsOk(catalog, records)
  {
    StreamSizeMeans(catalog, records, STREAM_HEADER_SIZE, StreamSize(catalog, records, STREAM_HEADER_SIZE).value);
  }

  lemma RecordOkAt(catalog: Catalog, records: seq<RawParamRecord>, k: nat)
    requires AllRecordsOk(catalog, records) && k < |records|
    ensures RecordCheck(catalog, records[k]) == Pass
  {
    assert RecordOk(catalog, records[k]);
  }

  // ---------------------------------------------------------------- the encoder and the decoder

  method EncodeParameterStream(catalog: Catalog, records: seq<RawParamRecord>) returns (r: Result<Data, StreamError>)
    ensures r == EncodedStream(catalog, records)
  {
    if |records| > MAX_RECORDS {
      return Err(TooManyRecords);
    }
    var total: nat := STREAM_HEADER_SIZE;
    assert records[0..] == records;
    for k := 0 to |records|
      invariant StreamSize(catalog, records[k..], total) == StreamSize(catalog, records, STREAM_HEADER_SIZE)
    {
      hide RecordCheck;
      assert records[k..][0] == records[k] && records[k..][1..] == records[k + 1..];
      match RecordCheck(catalog, records[k])
      case Fail(error) => return Err(error);
      case Pass =>
        total := total + RECORD_HEADER_SIZE + |records[k].payload|;
        if total > MAX_STREAM_BYTES {
          return Err(StreamTooLarge);
        }
    }
    var out := AppendMany(StreamHeader(|records|), PutRecord, records);
    return Ok(out);
  }

  method DecodeParameterStream(catalog: Catalog, bytes: Data) returns (r: Result<seq<RawParamRecord>, StreamError>)
    ensures r == DecodedStream(catalog, bytes)
  {
    if bytes == [] {
      return Ok([]);
    }
    if |bytes| > MAX_STREAM_BYTES {
      return Err(StreamTooLarge);
    }
    if |bytes| < STREAM_HEADER_SIZE {
      return Err(StreamTruncated);
    }
    if bytes[..4] != STREAM_MAGIC {
      return Err(BadStreamMagic);
    }
    if ReadU16(bytes, 4) != PARAMETER_STREAM_VERSION {
      return Err(UnsupportedStream);
    }
    if ReadU16(bytes, 6) != 0 {
      return Err(ReservedNotZero);
    }
    var count := ReadU32(bytes, 8);
    if count > MAX_RECORDS {
      return Err(TooManyRecords);
    }
    var parsed := TakeMany((b: Data) => ParseRecord(catalog, b), bytes[STREAM_HEADER_SIZE..], count);
    if parsed.Refused? {
      return Err(parsed.error);
    }
    if parsed.rest != [] {
      return Err(StreamTrailing);
    }
    return Ok(parsed.value);
  }

  // ---------------------------------------------------------------- where everything lies on the wire

  /** Every field of an encoded record, at its offset; signed ones in two's complement. */
  lemma RecordLies(catalog: Catalog, r: RawParamRecord)
    requires RecordOk(catalog, r)
    ensures var bytes := PutRecord(r);
            && |bytes| >= 24
            && ReadU32(bytes, 0) == (if r.param < 0 then r.param + 0x1_0000_0000 else r.param)
            && ReadU32(bytes, 4) == (if r.val1 < 0 then r.val1 + 0x1_0000_0000 else r.val1)
            && ReadU32(bytes, 8) == (if r.val2 < 0 then r.val2 + 0x1_0000_0000 else r.val2)
            && ReadU32(bytes, 12) == (if r.val3 < 0 then r.val3 + 0x1_0000_0000 else r.val3)
            && ReadU32(bytes, 16) == r.arrSize && ReadU32(bytes, 20) == |r.payload|
            && bytes[24..] == r.payload
  {
    var bytes, v := PutRecord(r), RecordFields(r);
    RecordWidth();
    RecordFieldsFit(catalog, r);
    CutApart(PutFields(RECORD_LAYOUT, v), r.payload);
    hide PutFields;
    hide Fits;
    hide RecordOk;
    assert HoldsFields(bytes, 0, RECORD_LAYOUT, v);
    hide HoldsFields;
    hide Width;
    RecordLiesThere(bytes, r);
    hide ReadU32;
  }

  lemma RecordLiesThere(bytes: Data, r: RawParamRecord)
    requires |bytes| >= 24 && HoldsFields(bytes, 0, RECORD_LAYOUT, RecordFields(r))
    ensures ReadU32(bytes, 0) == Unsigned(r.param) && ReadU32(bytes, 4) == Unsigned(r.val1)
    ensures ReadU32(bytes, 8) == Unsigned(r.val2) && ReadU32(bytes, 12) == Unsigned(r.val3)
    ensures ReadU32(bytes, 16) == r.arrSize && ReadU32(bytes, 20) == |r.payload|
  {
    hide *;
    RecordParts(bytes, r);
    FourFields(bytes, 0, 4, 4, 4, 4, Unsigned(r.param), Unsigned(r.val1), Unsigned(r.val2), Unsigned(r.val3));
    TwoFields(bytes, 16, 4, 4, r.arrSize, |r.payload|);
    FieldIsWord(bytes, 0, Unsigned(r.param));
    FieldIsWord(bytes, 4, Unsigned(r.val1));
    FieldIsWord(bytes, 8, Unsigned(r.val2));
    FieldIsWord(bytes, 12, Unsigned(r.val3));
    FieldIsWord(bytes, 16, r.arrSize);
    FieldIsWord(bytes, 20, |r.payload|);
  }

  lemma RecordParts(bytes: Data, r: RawParamRecord)
    requires HoldsFields(bytes, 0, RECORD_LAYOUT, RecordFields(r))
    ensures HoldsFields(bytes, 0, [4, 4, 4, 4],
                        [Unsigned(r.param), Unsigned(r.val1), Unsigned(r.val2), Unsigned(r.val3)])
    ensures HoldsFields(bytes, 16, [4, 4], [r.arrSize, |r.payload|])
  {
    hide HoldsFields;
    var v := RecordFields(r);
    FieldsSplit(bytes, 0, RECORD_LAYOUT, v, 4);
    WidthOfFour(4, 4, 4, 4);
    assert RECORD_LAYOUT[..4] == [4, 4, 4, 4] && RECORD_LAYOUT[4..] == [4, 4];
    assert v[..4] == [Unsigned(r.param), Unsigned(r.val1), Unsigned(r.val2), Unsigned(r.val3)];
    assert v[4..] == [r.arrSize, |r.payload|];
  }

  /** The head of an encoded stream; the records follow one behind the other. */
  lemma StreamLayout(catalog: Catalog, records: seq<RawParamRecord>)
    requires EncodedStream(catalog, records).Ok?
    ensures var bytes := EncodedStream(catalog, records).value;
            && |bytes| >= 12 && bytes[..4] == [0x56, 0x34, 0x41, 0x50]
            && ReadU16(bytes, 4) == 1 && ReadU16(bytes, 6) == 0 && ReadU32(bytes, 8) == |records|
            && bytes[12..] == PutMany(PutRecord, records)
  {
    hide PutRecords;
    hide StreamSize;
    hide Put;
    var bytes, body := EncodedStream(catalog, records).value, PutRecords(records);
    ReadsU16(bytes, 4, PARAMETER_STREAM_VERSION);
    ReadsU16(bytes, 6, 0);
    ReadsU32(bytes, 8, |records|);
    assert bytes == STREAM_MAGIC + PutU16(PARAMETER_STREAM_VERSION) + PutU16(0) + PutU32(|records|) + body;
    assert bytes[4..6] == PutU16(PARAMETER_STREAM_VERSION) && bytes[6..8] == PutU16(0) && bytes[8..12] == PutU32(|records|);
    assert bytes[12..] == body;
    RecordsArePut(records);
    hide PutU16;
    hide PutU32;
    hide ReadU16;
    hide ReadU32;
  }

  lemma RecordsArePut(records: seq<RawParamRecord>)
    ensures PutRecords(records) == PutMany(PutRecord, records)
  {
  }

  function PayloadBytes(records: seq<RawParamRecord>): nat {
    if records == [] then 0 else |records[0].payload| + PayloadBytes(records[1..])
  }

  lemma {:induction false} RecordsLength(records: seq<RawParamRecord>)
    ensures |PutRecords(records)| == 24 * |records| + PayloadBytes(records)
  {
    if records != [] {
      RecordWidth();
      assert |PutRecord(records[0])| == RECORD_HEADER_SIZE + |records[0].payload|;
      hide PutRecord;
      RecordsLength(records[1..]);
      assert PutRecords(records) == PutRecord(records[0]) + PutRecords(records[1..]);
    }
  }

  /** What a record may be: the driver reads exactly its payload. */
  predicate IsSendable(catalog: Catalog, r: RawParamRecord) {
    |r.payload| <= 8192 && r.arrSize <= 8192
    && match catalog(r.param)
       case Scalar => r.payload == [] && r.arrSize == 0
       case OneBank => |r.payload| == 4 * r.arrSize
       case TwoBanks => |r.payload| == 8 * r.arrSize
  }

  /** A stream is encoded exactly when it has at most 512 records, all of them sendable, and fits a mebibyte. */
  lemma EncodesIff(catalog: Catalog, records: seq<RawParamRecord>)
    ensures EncodedStream(catalog, records).Ok? <==>
              && |records| <= 512 && (forall r | r in records :: IsSendable(catalog, r))
              && 12 + 24 * |records| + PayloadBytes(records) <= 1048576
  {
    var size := StreamSize(catalog, records, STREAM_HEADER_SIZE);
    StreamSizeMeans(catalog, records, STREAM_HEADER_SIZE, if size.Ok? then size.value else 12 + |PutRecords(records)|);
    RecordsLength(records);
    forall r: RawParamRecord
      ensures RecordOk(catalog, r) <==> IsSendable(catalog, r)
    {
      SendableIff(catalog, r);
    }
    hide RecordOk;
    hide IsSendable;
    hide StreamSize;
    hide PutRecords;
    if AllRecordsOk(catalog, records) {
      forall r | r in records
        ensures IsSendable(catalog, r)
      {
      }
    }
  }

  lemma SendableIff(catalog: Catalog, r: RawParamRecord)
    ensures RecordOk(catalog, r) <==> IsSendable(catalog, r)
  {
  }
}
