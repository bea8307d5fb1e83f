/** The snapshot a daemon stores and sends: its validity, its wire form, and the two codecs. */
module SnapshotSchema {
  import opened Bytes
  import opened Parsing
  import opened ViperDaemonProtocol
  import opened Wrappers

  const SNAPSHOT_SCHEMA_VERSION: U16 := 1
  const SNAPSHOT_HEADER_SIZE: nat := 80
  const MAX_SNAPSHOT_SIZE: nat := 4 * 1024 * 1024
  const MAX_PARAMETER_BYTES: nat := 1024 * 1024
  const MAX_SNAPSHOT_STRING: nat := 4096
  const MAX_SNAPSHOT_RESOURCES: nat := 128
  const RESOURCE_FIXED_SIZE: nat := 32
  const SNAPSHOT_MAGIC: Data := [0x56, 0x34, 0x41, 0x53]
  const SEPARATOR: Byte := 0x7C

  datatype Resource = Resource(
    resourceId: Data,
    contentSha256: Data,
    size: U64,
    kind: U32,
    format: U32,
    channels: U32,
    order: U32)

  datatype Snapshot = Snapshot(
    schemaVersion: U16,
    driverProtocolVersion: U16,
    deviceKey: Data,
    deviceKeyHash: Data,
    bootId: U64,
    daemonGeneration: U64,
    appGeneration: U64,
    createdAtMillis: U64,
    masterEnabled: bool,
    globalMode: bool,
    parameters: Data,
    iemParameters: Data,
    resources: seq<Resource>,
    resourceGeneration: U64,
    graphGeneration: U64)

  datatype SnapshotError =
    | UnsupportedSchema | UnsupportedDriver | KeyInvalid | KeyNotCanonical | HashNotHex | HashMismatch
    | NoBootId | NoDaemonGeneration | NoAppGeneration | NoCreationTime
    | ParametersTooLarge | TooManyResources | ResourceIdInvalid | ResourceHashInvalid
    | DuplicateResourceId | DuplicateResourceHash
    | SnapshotTooLarge | Truncated | BadSnapshotMagic | FieldExceedsLimit | ResourceTruncated | SnapshotTrailing

  datatype Check = Pass | Fail(error: SnapshotError)

  // ---------------------------------------------------------------- validity

  predicate IsLowerHexDigit(b: Byte) {
    0x30 <= b <= 0x39 || 0x61 <= b <= 0x66
  }

  predicate IsLowerHex64(value: Data) {
    |value| == 64 && forall i | 0 <= i < 64 :: IsLowerHexDigit(value[i])
  }

  predicate ResourceFieldsOk(r: Resource) {
    0 < |r.resourceId| <= MAX_SNAPSHOT_STRING && IsLowerHex64(r.contentSha256)
  }

  /** A valid snapshot; `hash` is the device-key hash, of which nothing is assumed. */
  ghost predicate IsValid(s: Snapshot, hash: Data -> Data) {
    && HeaderCheck(s, hash) == Pass
    && (forall i | 0 <= i < |s.resources| :: ResourceFieldsOk(s.resources[i]))
    && (forall i, j | 0 <= i < j < |s.resources| ::
          s.resources[i].resourceId != s.resources[j].resourceId
          && s.resources[i].contentSha256 != s.resources[j].contentSha256)
  }

  /** The checks before the resource loop, in order. */
  function HeaderCheck(s: Snapshot, hash: Data -> Data): Check {
    if s.schemaVersion != SNAPSHOT_SCHEMA_VERSION then Fail(UnsupportedSchema)
    else if s.driverProtocolVersion != PROTOCOL_VERSION then Fail(UnsupportedDriver)
    else if s.deviceKey == [] || |s.deviceKey| > MAX_SNAPSHOT_STRING then Fail(KeyInvalid)
    else if SEPARATOR !in s.deviceKey then Fail(KeyNotCanonical)
    else if !IsLowerHex64(s.deviceKeyHash) then Fail(HashNotHex)
    else if hash(s.deviceKey) != s.deviceKeyHash then Fail(HashMismatch)
    else if s.bootId == 0 then Fail(NoBootId)
    else if s.daemonGeneration == 0 then Fail(NoDaemonGeneration)
    else if s.appGeneration == 0 then Fail(NoAppGeneration)
    else if s.createdAtMillis == 0 then Fail(NoCreationTime)
    else if |s.parameters| > MAX_PARAMETER_BYTES || |s.iemParameters| > MAX_PARAMETER_BYTES then Fail(ParametersTooLarge)
    else if |s.resources| > MAX_SNAPSHOT_RESOURCES then Fail(TooManyResources)
    else Pass
  }

  /** The check on resource `k`, given the ones before it. */
  function ResourceCheck(resources: seq<Resource>, k: nat): Check
    requires k < |resources|
  {
    var r := resources[k];
    if r.resourceId == [] || |r.resourceId| > MAX_SNAPSHOT_STRING then Fail(ResourceIdInvalid)
    else if !IsLowerHex64(r.contentSha256) then Fail(ResourceHashInvalid)
    else if exists i | 0 <= i < k :: resources[i].resourceId == r.resourceId then Fail(DuplicateResourceId)
    else if exists i | 0 <= i < k :: resources[i].contentSha256 == r.contentSha256 then Fail(DuplicateResourceHash)
    else Pass
  }

  /** First failing check among the resources from `k` on. */
  function ResourcesCheck(resources: seq<Resource>, k: nat): Check
    requires k <= |resources|
    decreases |resources| - k
  {
    if k == |resources| then Pass
    else if ResourceCheck(resources, k) != Pass then ResourceCheck(resources, k)
    else ResourcesCheck(resources, k + 1)
  }

  function Validation(s: Snapshot, hash: Data -> Data): Check {
    if HeaderCheck(s, hash) != Pass then HeaderCheck(s, hash) else ResourcesCheck(s.resources, 0)
  }

  /** The source's loop with its two sets of what was seen so far. */
  method ValidateSnapshot(s: Snapshot, hash: Data -> Data) returns (check: Check)
    ensures check == Validation(s, hash)
  {
    check := HeaderCheck(s, hash);
    if check != Pass {
      return;
    }
    var resourceIds: set<Data>, resourceHashes: set<Data> := {}, {};
    for k := 0 to |s.resources|
      invariant forall id :: id in resourceIds <==> exists i :: 0 <= i < k && s.resources[i].resourceId == id
      invariant forall h :: h in resourceHashes <==> exists i :: 0 <= i < k && s.resources[i].contentSha256 == h
      invariant ResourcesCheck(s.resources, 0) == ResourcesCheck(s.resources, k)
    {
      var resource := s.resources[k];
      if resource.resourceId == [] || |resource.resourceId| > MAX_SNAPSHOT_STRING {
        return Fail(ResourceIdInvalid);
      }
      if !IsLowerHex64(resource.contentSha256) {
        return Fail(ResourceHashInvalid);
      }
      if resource.resourceId in resourceIds {
        return Fail(DuplicateResourceId);
      }
      if resource.contentSha256 in resourceHashes {
        return Fail(DuplicateResourceHash);
      }
      resourceIds := resourceIds + {resource.resourceId};
      resourceHashes := resourceHashes + {resource.contentSha256};
    }
  }

  /** All resources from `k` on pass their check. */
  ghost predicate AllPass(resources: seq<Resource>, k: nat) {
    forall j: nat | k <= j < |resources| :: ResourceCheck(resources, j) == Pass
  }

  lemma {:induction false} ResourcesCheckMeans(resources: seq<Resource>, k: nat)
    requires k <= |resources|
    ensures ResourcesCheck(resources, k) == Pass <==> AllPass(resources, k)
    decreases |resources| - k
  {
    hide ResourceCheck;
    if k < |resources| {
      ResourcesCheckMeans(resources, k + 1);
      assert AllPass(resources, k) <==> ResourceCheck(resources, k) == Pass && AllPass(resources, k + 1);
    }
  }

  /** The validator passes exactly the valid snapshots. */
  lemma ValidationIsValid(s: Snapshot, hash: Data -> Data)
    ensures Validation(s, hash) == Pass <==> IsValid(s, hash)
  {
    hide HeaderCheck;
    hide IsLowerHex64;
    ResourcesCheckMeans(s.resources, 0);
    if Validation(s, hash) == Pass {
      forall i | 0 <= i < |s.resources|
        ensures ResourceFieldsOk(s.resources[i])
      {
        assert ResourceCheck(s.resources, i) == Pass;
      }
      forall i, j | 0 <= i < j < |s.resources|
        ensures s.resources[i].resourceId != s.resources[j].resourceId
        ensures s.resources[i].contentSha256 != s.resources[j].contentSha256
      {
        assert ResourceCheck(s.resources, j) == Pass;
      }
    }
    if IsValid(s, hash) {
      forall j: nat | j < |s.resources|
        ensures ResourceCheck(s.resources, j) == Pass
      {
        assert ResourceFieldsOk(s.resources[j]);
      }
    }
  }

  // ---------------------------------------------------------------- resources on the wire

  const RESOURCE_LAYOUT: Layout := [4, 4, 8, 4, 4, 4, 4]

  predicate ResourceFits(r: Resource) {
    |r.resourceId| <= MAX_SNAPSHOT_STRING && |r.contentSha256| <= MAX_SNAPSHOT_STRING
  }

  /** The fixed part of a resource, in wire order. */
  function ResourceFields(r: Resource): (values: seq<nat>)
    ensures |values| == |RESOURCE_LAYOUT|
  {
    [|r.resourceId|, |r.contentSha256|, r.size, r.kind, r.format, r.channels, r.order]
  }

  function PutResource(r: Resource): Data {
    PutFields(RESOURCE_LAYOUT, ResourceFields(r)) + r.resourceId + r.contentSha256
  }

  function PutResources(resources: seq<Resource>): Data {
    PutMany(PutResource, resources)
  }

  /** The resource at the front of `bytes`, and what follows it. */
  function ParseResource(bytes: Data): Parsed<Resource, SnapshotError> {
    if |bytes| < RESOURCE_FIXED_SIZE then Refused(ResourceTruncated)
    else
      ResourceWidth();
      PutGetFields(RESOURCE_LAYOUT, bytes[..RESOURCE_FIXED_SIZE]);
      ResourceFrom(GetFields(RESOURCE_LAYOUT, bytes[..RESOURCE_FIXED_SIZE]), bytes[RESOURCE_FIXED_SIZE..])
  }

  /** The resource with these fixed fields whose two strings are at the front of `tail`. */
  function ResourceFrom(v: seq<nat>, tail: Data): Parsed<Resource, SnapshotError>
    requires Fits(RESOURCE_LAYOUT, v)
  {
    if v[0] > MAX_SNAPSHOT_STRING || v[1] > MAX_SNAPSHOT_STRING || |tail| < v[0] + v[1]
    then Refused(ResourceTruncated)
    else
      WordSizes();
      Parsed(Resource(tail[..v[0]], tail[v[0]..v[0] + v[1]], v[2], v[3], v[4], v[5], v[6]), tail[v[0] + v[1]..])
  }

  function ParseResources(bytes: Data, count: nat): Parsed<seq<Resource>, SnapshotError> {
    ParseMany(ParseResource, bytes, count)
  }

  lemma ResourceWidth()
    ensures Width(RESOURCE_LAYOUT) == RESOURCE_FIXED_SIZE
  {
    assert RESOURCE_LAYOUT[1..] == [4, 8, 4, 4, 4, 4];
    assert [4, 8, 4, 4, 4, 4][1..] == [8, 4, 4, 4, 4];
    assert [8, 4, 4, 4, 4][1..] == [4, 4, 4, 4];
    assert [4, 4, 4, 4][1..] == [4, 4, 4];
    assert [4, 4, 4][1..] == [4, 4];
    assert [4, 4][1..] == [4];
  }

  lemma ResourceFieldsFit(r: Resource)
    requires ResourceFits(r)
    ensures Fits(RESOURCE_LAYOUT, ResourceFields(r))
  {
    WordSizes();
  }

  /** A resource is parsed off the front exactly when its wire form is there. */
  lemma ParsesResource(bytes: Data, r: Resource, rest: Data)
    ensures ParseResource(bytes) == Parsed(r, rest) <==> ResourceFits(r) && bytes == PutResource(r) + rest
  {
    hide Fits;
    ResourceWidth();
    if ParseResource(bytes) == Parsed(r, rest) {
      ParsedIsPut(bytes, r, rest);
    }
    if ResourceFits(r) && bytes == PutResource(r) + rest {
      PutIsParsed(bytes, r, rest);
    }
  }

  /** The two strings and what follows them, cut back out of their concatenation. */
  lemma ResourceFromFields(v: seq<nat>, tail: Data, r: Resource, rest: Data)
    requires Fits(RESOURCE_LAYOUT, v)
    ensures ResourceFrom(v, tail) == Parsed(r, rest) <==>
              ResourceFits(r) && v == ResourceFields(r) && tail == r.resourceId + r.contentSha256 + rest
  {
    if v == ResourceFields(r) && tail == r.resourceId + r.contentSha256 + rest {
      CutsInThree(r.resourceId, r.contentSha256, rest);
    }
    if ResourceFrom(v, tail) == Parsed(r, rest) {
      assert tail == r.resourceId + r.contentSha256 + rest;
      assert v == ResourceFields(r);
    }
  }

  lemma CutsInThree(a: Data, b: Data, c: Data)
    ensures (a + b + c)[..|a|] == a && (a + b + c)[|a|..|a| + |b|] == b && (a + b + c)[|a| + |b|..] == c
  {
  }

  lemma ParsedIsPut(bytes: Data, r: Resource, rest: Data)
    requires ParseResource(bytes) == Parsed(r, rest)
    ensures ResourceFits(r) && bytes == PutResource(r) + rest
  {
    ResourceWidth();
    hide Width;
    hide GetFields;
    hide PutFields;
    hide Fits;
    hide ResourceFrom;
    var head, tail := bytes[..RESOURCE_FIXED_SIZE], bytes[RESOURCE_FIXED_SIZE..];
    PutGetFields(RESOURCE_LAYOUT, head);
    ResourceFromFields(GetFields(RESOURCE_LAYOUT, head), tail, r, rest);
    Regroup(head, r.resourceId, r.contentSha256, rest);
    assert bytes == head + tail;
  }

  lemma PutIsParsed(bytes: Data, r: Resource, rest: Data)
    requires ResourceFits(r) && bytes == PutResource(r) + rest
    ensures ParseResource(bytes) == Parsed(r, rest)
  {
    ResourceWidth();
    ResourceFieldsFit(r);
    hide Width;
    hide GetFields;
    hide PutFields;
    hide Fits;
    hide ResourceFrom;
    var fixed, tail := PutFields(RESOURCE_LAYOUT, ResourceFields(r)), r.resourceId + r.contentSha256 + rest;
    Regroup(fixed, r.resourceId, r.contentSha256, rest);
    CutApart(fixed, tail);
    GetPutFields(RESOURCE_LAYOUT, ResourceFields(r));
    ResourceFromFields(ResourceFields(r), tail, r, rest);
  }

  ghost predicate AllFit(resources: seq<Resource>) {
    AllOk(ResourceFits, resources)
  }

  /** `count` resources are parsed off the front exactly when their wire forms are there. */
  lemma ParsesResources(bytes: Data, count: nat, resources: seq<Resource>, rest: Data)
    ensures ParseResources(bytes, count) == Parsed(resources, rest) <==>
              |resources| == count && AllFit(resources) && bytes == PutResources(resources) + rest
  {
    hide ParseResource;
    hide PutResource;
    hide ResourceFits;
    forall b, r, after
      ensures ParsesTo(ParseResource, b, r, after) <==> ResourceFits(r) && b == PutResource(r) + after
    {
      ParsesResource(b, r, after);
    }
    ParsesMany(ParseResource, PutResource, ResourceFits, bytes, count, resources, rest);
  }

  // ---------------------------------------------------------------- the header on the wire

  /** What follows the magic. */
  datatype Header = Header(
    schemaVersion: U16,
    driverProtocolVersion: U16,
    bootId: U64,
    daemonGeneration: U64,
    appGeneration: U64,
    createdAtMillis: U64,
    master: U8,
    global: U8,
    reserved: U16,
    keyLength: U32,
    hashLength: U32,
    parameterLength: U32,
    iemLength: U32,
    resourceCount: U32,
    resourceGeneration: U64,
    graphGeneration: U64)

  const HEADER_LAYOUT: Layout := [2, 2, 8, 8, 8, 8, 1, 1, 2, 4, 4, 4, 4, 4, 8, 8]

  function HeaderFields(h: Header): (values: seq<nat>)
    ensures |values| == |HEADER_LAYOUT|
  {
    [h.schemaVersion, h.driverProtocolVersion, h.bootId, h.daemonGeneration, h.appGeneration, h.createdAtMillis,
     h.master, h.global, h.reserved, h.keyLength, h.hashLength, h.parameterLength, h.iemLength, h.resourceCount,
     h.resourceGeneration, h.graphGeneration]
  }

  function PutHeader(h: Header): (bytes: Data) {
    PutFields(HEADER_LAYOUT, HeaderFields(h))
  }

  /** The decoder's reads, each starting where the one before stopped. */
  function ReadHeader(bytes: Data): Header
    requires |bytes| == SNAPSHOT_HEADER_SIZE - 4
  {
    HeaderWidth();
    PutGetFields(HEADER_LAYOUT, bytes);
    HeaderFrom(GetFields(HEADER_LAYOUT, bytes))
  }

  function HeaderFrom(v: seq<nat>): Header
    requires Fits(HEADER_LAYOUT, v)
  {
    HeaderWords(v);
    Header(v[0], v[1], v[2], v[3], v[4], v[5], v[6], v[7], v[8], v[9], v[10], v[11], v[12], v[13], v[14], v[15])
  }

  lemma HeaderWidth()
    ensures Width(HEADER_LAYOUT) == SNAPSHOT_HEADER_SIZE - 4
  {
    hide Width;
    var a, b, c, d := [2, 2, 8, 8], [8, 8, 1, 1], [2, 4, 4, 4], [4, 4, 8, 8];
    WidthOfFour(2, 2, 8, 8);
    WidthOfFour(8, 8, 1, 1);
    WidthOfFour(2, 4, 4, 4);
    WidthOfFour(4, 4, 8, 8);
    WidthAppend(a, b);
    WidthAppend(a + b, c);
    WidthAppend(a + b + c, d);
    assert HEADER_LAYOUT == a + b + c + d;
  }

  lemma HeaderWords(v: seq<nat>)
    requires Fits(HEADER_LAYOUT, v)
    ensures forall i | i in {0, 1, 8} :: v[i] < 0x1_0000
    ensures forall i | i in {2, 3, 4, 5, 14, 15} :: v[i] < 0x1_0000_0000_0000_0000
    ensures forall i | i in {9, 10, 11, 12, 13} :: v[i] < 0x1_0000_0000
    ensures v[6] < 256 && v[7] < 256
  {
    WordSizes();
    assert Pow256(1) == 256;
  }

  lemma HeaderFieldsFit(h: Header)
    ensures Fits(HEADER_LAYOUT, HeaderFields(h))
  {
    WordSizes();
    assert Pow256(1) == 256;
  }

  /** A header is read exactly when its wire form is there. */
  lemma ReadsHeader(bytes: Data, h: Header)
    ensures |PutHeader(h)| == SNAPSHOT_HEADER_SIZE - 4
    ensures |bytes| == SNAPSHOT_HEADER_SIZE - 4 ==> (ReadHeader(bytes) == h <==> bytes == PutHeader(h))
  {
    HeaderWidth();
    HeaderFieldsFit(h);
    hide Width;
    hide GetFields;
    hide PutFields;
    hide Fits;
    GetPutFields(HEADER_LAYOUT, HeaderFields(h));
    if |bytes| == SNAPSHOT_HEADER_SIZE - 4 {
      PutGetFields(HEADER_LAYOUT, bytes);
      var v := GetFields(HEADER_LAYOUT, bytes);
      assert HeaderFields(HeaderFrom(v)) == v;
      assert HeaderFrom(HeaderFields(h)) == h;
    }
  }

  // ---------------------------------------------------------------- the whole snapshot on the wire

  predicate Encodable(s: Snapshot) {
    && |s.deviceKey| <= MAX_SNAPSHOT_STRING && |s.deviceKeyHash| <= MAX_SNAPSHOT_STRING
    && |s.parameters| <= MAX_PARAMETER_BYTES && |s.iemParameters| <= MAX_PARAMETER_BYTES
    && |s.resources| <= MAX_SNAPSHOT_RESOURCES
  }

  /** The header of `s` when the two flag bytes and the reserved word hold the given values. */
  function HeaderOf(s: Snapshot, master: U8, global: U8, reserved: U16): Header
    requires Encodable(s)
  {
    Header(s.schemaVersion, s.driverProtocolVersion, s.bootId, s.daemonGeneration, s.appGeneration, s.createdAtMillis,
           master, global, reserved, |s.deviceKey|, |s.deviceKeyHash|, |s.parameters|, |s.iemParameters|,
           |s.resources|, s.resourceGeneration, s.graphGeneration)
  }

  /** Everything after the header. */
  function Body(s: Snapshot): Data {
    s.deviceKey + s.deviceKeyHash + s.parameters + s.iemParameters + PutResources(s.resources)
  }

  function Wire(s: Snapshot, master: U8, global: U8, reserved: U16): Data
    requires Encodable(s)
  {
    SNAPSHOT_MAGIC + PutHeader(HeaderOf(s, master, global, reserved)) + Body(s)
  }

  function FlagByte(flag: bool): U8 {
    if flag then 1 else 0
  }

  /** The form the encoder writes. */
  function CanonicalWire(s: Snapshot): Data
    requires Encodable(s)
  {
    Wire(s, FlagByte(s.masterEnabled), FlagByte(s.globalMode), 0)
  }

  function EncodedSnapshot(s: Snapshot, hash: Data -> Data): Result<Data, SnapshotError> {
    if Validation(s, hash) != Pass then Err(Validation(s, hash).error)
    else if |CanonicalWire(s)| > MAX_SNAPSHOT_SIZE then Err(SnapshotTooLarge)
    else Ok(CanonicalWire(s))
  }

  predicate LengthsAllowed(h: Header) {
    && h.keyLength <= MAX_SNAPSHOT_STRING && h.hashLength <= MAX_SNAPSHOT_STRING
    && h.parameterLength <= MAX_PARAMETER_BYTES && h.iemLength <= MAX_PARAMETER_BYTES
    && h.resourceCount <= MAX_SNAPSHOT_RESOURCES
  }

  function VariableLength(h: Header): nat {
    h.keyLength + h.hashLength + h.parameterLength + h.iemLength
  }

  /** The snapshot with this header, its variable fields cut off the front of `body`, and these resources. */
  function Assembled(h: Header, body: Data, resources: seq<Resource>): Snapshot
    requires VariableLength(h) <= |body|
  {
    var hashAt, parametersAt := h.keyLength, h.keyLength + h.hashLength;
    var iemAt := parametersAt + h.parameterLength;
    Snapshot(h.schemaVersion, h.driverProtocolVersion, body[..hashAt], body[hashAt..parametersAt],
             h.bootId, h.daemonGeneration, h.appGeneration, h.createdAtMillis, h.master != 0, h.global != 0,
             body[parametersAt..iemAt], body[iemAt..VariableLength(h)], resources,
             h.resourceGeneration, h.graphGeneration)
  }

  function DecodedSnapshot(bytes: Data, hash: Data -> Data): Result<Snapshot, SnapshotError> {
    if |bytes| < SNAPSHOT_HEADER_SIZE then Err(Truncated)
    else if |bytes| > MAX_SNAPSHOT_SIZE then Err(SnapshotTooLarge)
    else if bytes[..4] != SNAPSHOT_MAGIC then Err(BadSnapshotMagic)
    else DecodedBody(ReadHeader(bytes[4..SNAPSHOT_HEADER_SIZE]), bytes[SNAPSHOT_HEADER_SIZE..], hash)
  }

  function DecodedBody(h: Header, body: Data, hash: Data -> Data): Result<Snapshot, SnapshotError> {
    if !LengthsAllowed(h) then Err(FieldExceedsLimit)
    else if |body| < VariableLength(h) then Err(Truncated)
    else
      match ParseResources(body[VariableLength(h)..], h.resourceCount)
      case Refused(error) => Err(error)
      case Parsed(resources, rest) =>
        if rest != [] then Err(SnapshotTrailing)
        else
          var s := Assembled(h, body, resources);
          if Validation(s, hash) != Pass then Err(Validation(s, hash).error) else Ok(s)
  }

  // ---------------------------------------------------------------- round trips

  lemma CutsInFive(a: Data, b: Data, c: Data, d: Data, e: Data)
    ensures var all, i, j, k := a + b + c + d + e, |a| + |b|, |a| + |b| + |c|, |a| + |b| + |c| + |d|;
            && all[..|a|] == a && all[|a|..i] == b && all[i..j] == c && all[j..k] == d && all[k..] == e
  {
  }

  lemma JoinsFive(all: Data, i: nat, j: nat, k: nat, l: nat)
    requires i <= j <= k <= l <= |all|
    ensures all == all[..i] + all[i..j] + all[j..k] + all[k..l] + all[l..]
  {
  }

  lemma ValidFits(s: Snapshot, hash: Data -> Data)
    requires IsValid(s, hash)
    ensures AllFit(s.resources) && Encodable(s)
  {
    forall i | 0 <= i < |s.resources|
      ensures ResourceFits(s.resources[i])
    {
      assert ResourceFieldsOk(s.resources[i]);
    }
  }

  /** The header and body are those of `s`, with any non-zero byte for a set flag. */
  ghost predicate Describes(h: Header, body: Data, s: Snapshot) {
    Encodable(s) && h == HeaderOf(s, h.master, h.global, h.reserved)
    && s.masterEnabled == (h.master != 0) && s.globalMode == (h.global != 0) && body == Body(s)
  }

  lemma BodyIsDescribed(h: Header, body: Data, hash: Data -> Data, s: Snapshot)
    requires DecodedBody(h, body, hash) == Ok(s)
    ensures IsValid(s, hash) && Describes(h, body, s)
  {
    ValidationIsValid(s, hash);
    hide ParseResources;
    hide PutResources;
    hide Validation;
    hide IsValid;
    hide Describes;
    hide Assembled;
    var rest := body[VariableLength(h)..];
    var resources := ParseResources(rest, h.resourceCount).value;
    ParsesResources(rest, h.resourceCount, resources, []);
    assert rest == PutResources(resources);
    AssembledIsDescribed(h, body, resources);
  }

  lemma AssembledIsDescribed(h: Header, body: Data, resources: seq<Resource>)
    requires LengthsAllowed(h) && VariableLength(h) <= |body| && |resources| == h.resourceCount
    requires body[VariableLength(h)..] == PutResources(resources)
    ensures Describes(h, body, Assembled(h, body, resources))
  {
    hide PutResources;
    JoinsFive(body, h.keyLength, h.keyLength + h.hashLength, h.keyLength + h.hashLength + h.parameterLength,
              VariableLength(h));
  }

  lemma DescribedIsDecoded(h: Header, body: Data, hash: Data -> Data, s: Snapshot)
    requires IsValid(s, hash) && Describes(h, body, s)
    ensures DecodedBody(h, body, hash) == Ok(s)
  {
    DescribedIsAssembled(h, body, s);
    ValidFits(s, hash);
    ValidationIsValid(s, hash);
    hide *;
    DescribedIsDecodedBody(h, body, hash, s);
  }

  lemma DescribedIsAssembled(h: Header, body: Data, s: Snapshot)
    requires Describes(h, body, s)
    ensures LengthsAllowed(h) && h.resourceCount == |s.resources| && VariableLength(h) <= |body|
    ensures body[VariableLength(h)..] == PutResources(s.resources) && Assembled(h, body, s.resources) == s
  {
    hide PutResources;
    CutsInFive(s.deviceKey, s.deviceKeyHash, s.parameters, s.iemParameters, PutResources(s.resources));
  }

  lemma DescribedIsDecodedBody(h: Header, body: Data, hash: Data -> Data, s: Snapshot)
    requires LengthsAllowed(h) && h.resourceCount == |s.resources| && VariableLength(h) <= |body|
    requires body[VariableLength(h)..] == PutResources(s.resources) && Assembled(h, body, s.resources) == s
    requires AllFit(s.resources) && Validation(s, hash) == Pass
    ensures DecodedBody(h, body, hash) == Ok(s)
  {
    hide ParseResources;
    hide PutResources;
    hide Validation;
    hide Assembled;
    ParsesResources(body[VariableLength(h)..], h.resourceCount, s.resources, []);
    assert PutResources(s.resources) + [] == PutResources(s.resources);
  }

  lemma DecodedIsWire(bytes: Data, hash: Data -> Data, s: Snapshot) returns (master: U8, global: U8, reserved: U16)
    requires DecodedSnapshot(bytes, hash) == Ok(s)
    ensures IsValid(s, hash) && |bytes| <= MAX_SNAPSHOT_SIZE && Encodable(s)
    ensures s.masterEnabled == (master != 0) && s.globalMode == (global != 0)
    ensures bytes == Wire(s, master, global, reserved)
  {
    hide DecodedBody;
    hide ReadHeader;
    hide PutHeader;
    hide Body;
    hide IsValid;
    var head, body := bytes[4..SNAPSHOT_HEADER_SIZE], bytes[SNAPSHOT_HEADER_SIZE..];
    var h := ReadHeader(head);
    ReadsHeader(head, h);
    BodyIsDescribed(h, body, hash, s);
    master, global, reserved := h.master, h.global, h.reserved;
    assert bytes == SNAPSHOT_MAGIC + head + body;
  }

  lemma WireIsDecoded(bytes: Data, hash: Data -> Data, s: Snapshot, master: U8, global: U8, reserved: U16)
    requires IsValid(s, hash) && |bytes| <= MAX_SNAPSHOT_SIZE && Encodable(s)
    requires s.masterEnabled == (master != 0) && s.globalMode == (global != 0)
    requires bytes == Wire(s, master, global, reserved)
    ensures DecodedSnapshot(bytes, hash) == Ok(s)
  {
    hide DecodedBody;
    hide ReadHeader;
    hide PutHeader;
    hide Body;
    hide IsValid;
    var h := HeaderOf(s, master, global, reserved);
    ReadsHeader(PutHeader(h), h);
    CutsInThree(SNAPSHOT_MAGIC, PutHeader(h), Body(s));
    DescribedIsDecoded(h, Body(s), hash, s);
  }

  /** The decoder yields `s` exactly on `s`'s wire forms: it ignores the reserved word and reads any non-zero byte as a
      set flag. */
  lemma DecodesWireForms(bytes: Data, hash: Data -> Data, s: Snapshot)
    ensures DecodedSnapshot(bytes, hash) == Ok(s) <==>
              && IsValid(s, hash) && |bytes| <= MAX_SNAPSHOT_SIZE && Encodable(s)
              && exists master: U8, global: U8, reserved: U16 ::
                   && s.masterEnabled == (master != 0) && s.globalMode == (global != 0)
                   && bytes == Wire(s, master, global, reserved)
  {
    hide DecodedSnapshot;
    hide Wire;
    hide IsValid;
    if DecodedSnapshot(bytes, hash) == Ok(s) {
      var master, global, reserved := DecodedIsWire(bytes, hash, s);
    }
    if IsValid(s, hash) && |bytes| <= MAX_SNAPSHOT_SIZE && Encodable(s) {
      if master: U8, global: U8, reserved: U16 :|
          && s.masterEnabled == (master != 0) && s.globalMode == (global != 0)
          && bytes == Wire(s, master, global, reserved) {
        WireIsDecoded(bytes, hash, s, master, global, reserved);
      }
    }
  }

  /** No accepted snapshot is the front of another: the decoder knows where a snapshot ends. */
  lemma DecodedIsPrefixFree(bytes: Data, more: Data, hash: Data -> Data)
    requires bytes <= more && DecodedSnapshot(bytes, hash).Ok? && DecodedSnapshot(more, hash).Ok?
    ensures bytes == more
  {
    hide DecodedBody;
    hide ReadHeader;
    var head, body, longer := bytes[4..SNAPSHOT_HEADER_SIZE], bytes[SNAPSHOT_HEADER_SIZE..], more[SNAPSHOT_HEADER_SIZE..];
    assert head == more[4..SNAPSHOT_HEADER_SIZE] && body <= longer;
    BodyIsPrefixFree(ReadHeader(head), body, longer, hash);
    assert bytes == bytes[..SNAPSHOT_HEADER_SIZE] + body && more == more[..SNAPSHOT_HEADER_SIZE] + longer;
  }

  lemma BodyIsPrefixFree(h: Header, body: Data, longer: Data, hash: Data -> Data)
    requires body <= longer && DecodedBody(h, body, hash).Ok? && DecodedBody(h, longer, hash).Ok?
    ensures body == longer
  {
    hide ParseResources;
    hide PutResources;
    hide Assembled;
    hide Validation;
    var n := VariableLength(h);
    var resources := ParseResources(body[n..], h.resourceCount).value;
    var extra := longer[|body|..];
    assert longer[n..] == body[n..] + extra;
    ParsesResources(body[n..], h.resourceCount, resources, []);
    assert body[n..] == PutResources(resources);
    ParsesResources(longer[n..], h.resourceCount, resources, extra);
    assert longer == body + extra;
  }

  // ---------------------------------------------------------------- size

  /** The longest wire form of a valid snapshot. */
  const LARGEST_ENCODING: nat :=
    SNAPSHOT_HEADER_SIZE + MAX_SNAPSHOT_STRING + 64 + 2 * MAX_PARAMETER_BYTES + MAX_SNAPSHOT_RESOURCES * LARGEST_RESOURCE
  const LARGEST_RESOURCE: nat := RESOURCE_FIXED_SIZE + MAX_SNAPSHOT_STRING + 64

  lemma ResourceLength(r: Resource)
    requires ResourceFieldsOk(r)
    ensures |PutResource(r)| <= LARGEST_RESOURCE
  {
    ResourceWidth();
    hide Width;
  }

  lemma {:induction false} ResourcesLength(resources: seq<Resource>)
    requires forall i | 0 <= i < |resources| :: ResourceFieldsOk(resources[i])
    ensures |PutResources(resources)| <= |resources| * LARGEST_RESOURCE
  {
    hide ResourceFieldsOk;
    hide PutResource;
    if resources != [] {
      assert PutResources(resources) == PutResource(resources[0]) + PutResources(resources[1..]);
      ResourceLength(resources[0]);
      ResourcesLength(resources[1..]);
    }
  }

  lemma WireLength(s: Snapshot, master: U8, global: U8, reserved: U16)
    requires Encodable(s)
    ensures |Wire(s, master, global, reserved)|
         == SNAPSHOT_HEADER_SIZE + |s.deviceKey| + |s.deviceKeyHash| + |s.parameters| + |s.iemParameters|
            + |PutResources(s.resources)|
  {
    ReadsHeader([], HeaderOf(s, master, global, reserved));
    hide PutHeader;
    hide PutResources;
  }

  lemma ValidWireLength(s: Snapshot, hash: Data -> Data)
    requires IsValid(s, hash) && Encodable(s)
    ensures |CanonicalWire(s)| <= LARGEST_ENCODING
  {
    hide Wire;
    hide PutResources;
    ResourcesLength(s.resources);
    WireLength(s, FlagByte(s.masterEnabled), FlagByte(s.globalMode), 0);
  }

  /** The size guard of the encoder never fires: it refuses exactly the invalid snapshots. */
  lemma EncodesExactlyValid(s: Snapshot, hash: Data -> Data)
    ensures LARGEST_ENCODING == 2637968 && LARGEST_ENCODING < MAX_SNAPSHOT_SIZE
    ensures EncodedSnapshot(s, hash).Ok? <==> IsValid(s, hash)
    ensures EncodedSnapshot(s, hash).Ok? ==> |EncodedSnapshot(s, hash).value| <= LARGEST_ENCODING
    ensures EncodedSnapshot(s, hash) != Err(SnapshotTooLarge)
  {
    hide CanonicalWire;
    hide IsValid;
    hide ResourcesCheck;
    hide HeaderCheck;
    ValidationIsValid(s, hash);
    if IsValid(s, hash) {
      ValidFits(s, hash);
      ValidWireLength(s, hash);
    } else {
      HeaderNeverTooLarge(s, hash, 0);
    }
  }

  lemma {:induction false} HeaderNeverTooLarge(s: Snapshot, hash: Data -> Data, k: nat)
    requires k <= |s.resources|
    ensures HeaderCheck(s, hash) != Fail(SnapshotTooLarge)
    ensures ResourcesCheck(s.resources, k) != Fail(SnapshotTooLarge)
    decreases |s.resources| - k
  {
    hide IsLowerHex64;
    if k < |s.resources| {
      HeaderNeverTooLarge(s, hash, k + 1);
    }
  }

  // ---------------------------------------------------------------- the two identities

  /** Decoding an encoded snapshot gives it back. */
  lemma DecodeEncode(s: Snapshot, hash: Data -> Data)
    requires IsValid(s, hash)
    ensures Encodable(s) && EncodedSnapshot(s, hash) == Ok(CanonicalWire(s))
    ensures DecodedSnapshot(CanonicalWire(s), hash) == Ok(s)
  {
    EncodesExactlyValid(s, hash);
    ValidationIsValid(s, hash);
    ValidFits(s, hash);
    hide IsValid;
    hide Wire;
    hide Validation;
    hide DecodedSnapshot;
    WireIsDecoded(CanonicalWire(s), hash, s, FlagByte(s.masterEnabled), FlagByte(s.globalMode), 0);
  }

  /** What the encoder writes in the two flag bytes and the reserved word. */
  predicate HasCanonicalHeader(bytes: Data) {
    |bytes| >= SNAPSHOT_HEADER_SIZE
    && var h := ReadHeader(bytes[4..SNAPSHOT_HEADER_SIZE]);
       h.master <= 1 && h.global <= 1 && h.reserved == 0
  }

  /** A decoded snapshot can be encoded again, to bytes that decode to the same value; they are the same bytes exactly
      when the flag bytes are 0 or 1 and the reserved word is 0. */
  lemma EncodeDecode(bytes: Data, hash: Data -> Data)
    requires DecodedSnapshot(bytes, hash).Ok?
    ensures var again := EncodedSnapshot(DecodedSnapshot(bytes, hash).value, hash);
            && again.Ok? && DecodedSnapshot(again.value, hash) == DecodedSnapshot(bytes, hash)
            && (again.value == bytes <==> HasCanonicalHeader(bytes))
  {
    hide DecodedSnapshot;
    hide EncodedSnapshot;
    hide Wire;
    hide IsValid;
    hide ReadHeader;
    var s := DecodedSnapshot(bytes, hash).value;
    var master, global, reserved := DecodedIsWire(bytes, hash, s);
    DecodeEncode(s, hash);
    WireHeader(s, master, global, reserved);
    WireHeader(s, FlagByte(s.masterEnabled), FlagByte(s.globalMode), 0);
  }

  /** Accepted bytes that are not re-encoded to themselves: any snapshot with the reserved word set, and any enabled one
      with another flag byte than 1. */
  lemma AcceptsOtherForms(s: Snapshot, hash: Data -> Data, master: U8, reserved: U16)
    requires IsValid(s, hash) && s.masterEnabled == (master != 0)
    requires master > 1 || reserved != 0
    ensures Encodable(s)
    ensures var bytes := Wire(s, master, FlagByte(s.globalMode), reserved);
            DecodedSnapshot(bytes, hash) == Ok(s) && EncodedSnapshot(s, hash).Ok? && EncodedSnapshot(s, hash) != Ok(bytes)
  {
    ValidFits(s, hash);
    ValidWireLength(s, hash);
    var global := FlagByte(s.globalMode);
    var bytes := Wire(s, master, global, reserved);
    WireLength(s, master, global, reserved);
    WireLength(s, FlagByte(s.masterEnabled), global, 0);
    WireIsDecoded(bytes, hash, s, master, global, reserved);
    EncodeDecode(bytes, hash);
    hide DecodedSnapshot;
    hide EncodedSnapshot;
    hide Wire;
    hide IsValid;
    hide ReadHeader;
    WireHeader(s, master, global, reserved);
  }

  function SampleHash(key: Data): (hash: Data)
    ensures |hash| == 64
  {
    seq(64, _ => 0x61)
  }

  /** A snapshot that is valid when every key hashes to 64 letters `a`. */
  function Sample(): Snapshot {
    Snapshot(SNAPSHOT_SCHEMA_VERSION, PROTOCOL_VERSION, [SEPARATOR], SampleHash([SEPARATOR]), 1, 1, 1, 1, true, false,
             [], [], [], 0, 0)
  }

  lemma SampleIsValid()
    ensures IsValid(Sample(), SampleHash)
  {
  }

  /** Two wire forms of one snapshot, both accepted, neither the encoder's. */
  lemma SampleHasOtherForms()
    ensures Encodable(Sample())
    ensures var two, reserved := Wire(Sample(), 2, 0, 0), Wire(Sample(), 1, 0, 1);
            && DecodedSnapshot(two, SampleHash) == Ok(Sample()) == DecodedSnapshot(reserved, SampleHash)
            && EncodedSnapshot(Sample(), SampleHash) != Ok(two) && EncodedSnapshot(Sample(), SampleHash) != Ok(reserved)
  {
    SampleIsValid();
    hide DecodedSnapshot;
    hide EncodedSnapshot;
    hide Wire;
    hide IsValid;
    AcceptsOtherForms(Sample(), SampleHash, 2, 0);
    AcceptsOtherForms(Sample(), SampleHash, 1, 1);
  }

  lemma WireHeader(s: Snapshot, master: U8, global: U8, reserved: U16)
    requires Encodable(s)
    ensures var bytes := Wire(s, master, global, reserved);
            && |bytes| >= SNAPSHOT_HEADER_SIZE
            && ReadHeader(bytes[4..SNAPSHOT_HEADER_SIZE]) == HeaderOf(s, master, global, reserved)
  {
    hide PutHeader;
    hide ReadHeader;
    hide Body;
    var h := HeaderOf(s, master, global, reserved);
    ReadsHeader(PutHeader(h), h);
    CutsInThree(SNAPSHOT_MAGIC, PutHeader(h), Body(s));
  }

  // ---------------------------------------------------------------- the encoder and the decoder

  /** Appends the fields one after the other, then the resources. */
  method EncodeSnapshot(s: Snapshot, hash: Data -> Data) returns (r: Result<Data, SnapshotError>)
    ensures r == EncodedSnapshot(s, hash)
  {
    hide CanonicalWire;
    hide ResourcesCheck;
    var check := ValidateSnapshot(s, hash);
    if check != Pass {
      return Err(check.error);
    }
    var out := AppendAll(s);
    if |out| > MAX_SNAPSHOT_SIZE {
      return Err(SnapshotTooLarge);
    }
    return Ok(out);
  }

  method AppendAll(s: Snapshot) returns (out: Data)
    requires Encodable(s)
    ensures out == CanonicalWire(s)
  {
    hide PutHeader;
    hide PutResource;
    var header := HeaderOf(s, FlagByte(s.masterEnabled), FlagByte(s.globalMode), 0);
    out := SNAPSHOT_MAGIC + PutHeader(header);
    RegroupSix(out, s.deviceKey, s.deviceKeyHash, s.parameters, s.iemParameters, PutResources(s.resources));
    out := out + s.deviceKey + s.deviceKeyHash + s.parameters + s.iemParameters;
    out := AppendMany(out, PutResource, s.resources);
  }

  lemma RegroupSix(a: Data, b: Data, c: Data, d: Data, e: Data, f: Data)
    ensures a + b + c + d + e + f == a + (b + c + d + e + f)
  {
  }

  /** Reads the header and the variable fields, then the resources one after the other. */
  method DecodeSnapshot(bytes: Data, hash: Data -> Data) returns (r: Result<Snapshot, SnapshotError>)
    ensures r == DecodedSnapshot(bytes, hash)
  {
    if |bytes| < SNAPSHOT_HEADER_SIZE {
      return Err(Truncated);
    }
    if |bytes| > MAX_SNAPSHOT_SIZE || bytes[..4] != SNAPSHOT_MAGIC {
      return Err(if |bytes| > MAX_SNAPSHOT_SIZE then SnapshotTooLarge else BadSnapshotMagic);
    }
    r := DecodeBody(ReadHeader(bytes[4..SNAPSHOT_HEADER_SIZE]), bytes[SNAPSHOT_HEADER_SIZE..], hash);
  }

  method DecodeBody(h: Header, body: Data, hash: Data -> Data) returns (r: Result<Snapshot, SnapshotError>)
    ensures r == DecodedBody(h, body, hash)
  {
    hide ResourcesCheck;
    if !LengthsAllowed(h) {
      return Err(FieldExceedsLimit);
    }
    if |body| < VariableLength(h) {
      return Err(Truncated);
    }
    var parsed := TakeMany(ParseResource, body[VariableLength(h)..], h.resourceCount);
    if parsed.Refused? {
      return Err(parsed.error);
    }
    if parsed.rest != [] {
      return Err(SnapshotTrailing);
    }
    var s := Assembled(h, body, parsed.value);
    var check := ValidateSnapshot(s, hash);
    if check != Pass {
      return Err(check.error);
    }
    return Ok(s);
  }

  // ---------------------------------------------------------------- where everything lies on the wire

  lemma HoldsHeader(h: Header, before: Data, after: Data)
    ensures HoldsFields(before + PutHeader(h) + after, |before|, HEADER_LAYOUT, HeaderFields(h))
  {
    HeaderFieldsFit(h);
    CutsInThree(before, PutHeader(h), after);
    hide PutFields;
    hide Width;
    hide Fits;
  }

  lemma HeaderQuarters(bytes: Data, h: Header)
    requires HoldsFields(bytes, 4, HEADER_LAYOUT, HeaderFields(h))
    ensures HoldsFields(bytes, 4, [2, 2, 8, 8], [h.schemaVersion, h.driverProtocolVersion, h.bootId, h.daemonGeneration])
    ensures HoldsFields(bytes, 24, [8, 8, 1, 1], [h.appGeneration, h.createdAtMillis, h.master, h.global])
    ensures HoldsFields(bytes, 42, [2, 4, 4, 4], [h.reserved, h.keyLength, h.hashLength, h.parameterLength])
    ensures HoldsFields(bytes, 56, [4, 4, 8, 8], [h.iemLength, h.resourceCount, h.resourceGeneration, h.graphGeneration])
  {
    hide *;
    HeaderHalves(bytes, h);
    QuartersOf(bytes, 4, [2, 2, 8, 8], [8, 8, 1, 1],
               [h.schemaVersion, h.driverProtocolVersion, h.bootId, h.daemonGeneration],
               [h.appGeneration, h.createdAtMillis, h.master, h.global]);
    QuartersOf(bytes, 42, [2, 4, 4, 4], [4, 4, 8, 8],
               [h.reserved, h.keyLength, h.hashLength, h.parameterLength],
               [h.iemLength, h.resourceCount, h.resourceGeneration, h.graphGeneration]);
    WidthOfFour(2, 2, 8, 8);
    WidthOfFour(2, 4, 4, 4);
  }

  lemma HeaderHalves(bytes: Data, h: Header)
    requires HoldsFields(bytes, 4, HEADER_LAYOUT, HeaderFields(h))
    ensures HoldsFields(bytes, 4, [2, 2, 8, 8] + [8, 8, 1, 1],
                        [h.schemaVersion, h.driverProtocolVersion, h.bootId, h.daemonGeneration]
                        + [h.appGeneration, h.createdAtMillis, h.master, h.global])
    ensures HoldsFields(bytes, 42, [2, 4, 4, 4] + [4, 4, 8, 8],
                        [h.reserved, h.keyLength, h.hashLength, h.parameterLength]
                        + [h.iemLength, h.resourceCount, h.resourceGeneration, h.graphGeneration])
  {
    var v := HeaderFields(h);
    hide HoldsFields;
    FieldsSplit(bytes, 4, HEADER_LAYOUT, v, 8);
    assert HEADER_LAYOUT[..8] == [2, 2, 8, 8] + [8, 8, 1, 1] && HEADER_LAYOUT[8..] == [2, 4, 4, 4] + [4, 4, 8, 8];
    WidthOfFour(2, 2, 8, 8);
    WidthOfFour(8, 8, 1, 1);
    WidthAppend([2, 2, 8, 8], [8, 8, 1, 1]);
    assert v[..8] == [h.schemaVersion, h.driverProtocolVersion, h.bootId, h.daemonGeneration]
                     + [h.appGeneration, h.createdAtMillis, h.master, h.global];
    assert v[8..] == [h.reserved, h.keyLength, h.hashLength, h.parameterLength]
                     + [h.iemLength, h.resourceCount, h.resourceGeneration, h.graphGeneration];
  }

  lemma QuartersOf(bytes: Data, at: nat, a: Layout, b: Layout, x: seq<nat>, y: seq<nat>)
    requires |a| == |x| && HoldsFields(bytes, at, a + b, x + y)
    ensures HoldsFields(bytes, at, a, x) && HoldsFields(bytes, at + Width(a), b, y)
  {
    hide HoldsFields;
    assert |b| == |y| by { FitsSameLength(bytes, at, a + b, x + y); }
    FieldsSplit(bytes, at, a + b, x + y, |a|);
    assert (a + b)[..|a|] == a && (a + b)[|a|..] == b && (x + y)[..|a|] == x && (x + y)[|a|..] == y;
  }

  lemma FitsSameLength(bytes: Data, at: nat, layout: Layout, values: seq<nat>)
    requires HoldsFields(bytes, at, layout, values)
    ensures |layout| == |values|
  {
  }

  ghost predicate HeaderLies(bytes: Data, h: Header) {
    && |bytes| >= 80
    && ReadU16(bytes, 4) == h.schemaVersion && ReadU16(bytes, 6) == h.driverProtocolVersion
    && ReadU64(bytes, 8) == h.bootId && ReadU64(bytes, 16) == h.daemonGeneration
    && ReadU64(bytes, 24) == h.appGeneration && ReadU64(bytes, 32) == h.createdAtMillis
    && bytes[40] as nat == h.master && bytes[41] as nat == h.global && ReadU16(bytes, 42) == h.reserved
    && ReadU32(bytes, 44) == h.keyLength && ReadU32(bytes, 48) == h.hashLength
    && ReadU32(bytes, 52) == h.parameterLength && ReadU32(bytes, 56) == h.iemLength
    && ReadU32(bytes, 60) == h.resourceCount
    && ReadU64(bytes, 64) == h.resourceGeneration && ReadU64(bytes, 72) == h.graphGeneration
  }

  lemma HeaderLiesThere(bytes: Data, h: Header)
    requires |bytes| >= 80 && HoldsFields(bytes, 4, HEADER_LAYOUT, HeaderFields(h))
    ensures HeaderLies(bytes, h)
  {
    HeaderQuarters(bytes, h);
    hide HoldsFields;
    hide HoldsField;
    FourFields(bytes, 4, 2, 2, 8, 8, h.schemaVersion, h.driverProtocolVersion, h.bootId, h.daemonGeneration);
    FourFields(bytes, 24, 8, 8, 1, 1, h.appGeneration, h.createdAtMillis, h.master, h.global);
    FourFields(bytes, 42, 2, 4, 4, 4, h.reserved, h.keyLength, h.hashLength, h.parameterLength);
    FourFields(bytes, 56, 4, 4, 8, 8, h.iemLength, h.resourceCount, h.resourceGeneration, h.graphGeneration);
    FieldIsWord(bytes, 4, h.schemaVersion);
    FieldIsWord(bytes, 6, h.driverProtocolVersion);
    FieldIsWord(bytes, 8, h.bootId);
    FieldIsWord(bytes, 16, h.daemonGeneration);
    FieldIsWord(bytes, 24, h.appGeneration);
    FieldIsWord(bytes, 32, h.createdAtMillis);
    FieldIsWord(bytes, 40, h.master);
    FieldIsWord(bytes, 41, h.global);
    FieldIsWord(bytes, 42, h.reserved);
    FieldIsWord(bytes, 44, h.keyLength);
    FieldIsWord(bytes, 48, h.hashLength);
    FieldIsWord(bytes, 52, h.parameterLength);
    FieldIsWord(bytes, 56, h.iemLength);
    FieldIsWord(bytes, 60, h.resourceCount);
    FieldIsWord(bytes, 64, h.resourceGeneration);
    FieldIsWord(bytes, 72, h.graphGeneration);
    hide ReadU16;
    hide ReadU32;
    hide ReadU64;
  }

  /** Every field of an encoded snapshot, at its offset. */
  lemma SnapshotLayout(s: Snapshot)
    requires Encodable(s)
    ensures var bytes := CanonicalWire(s);
            && |bytes| >= 80 && bytes[..4] == [0x56, 0x34, 0x41, 0x53]
            && ReadU16(bytes, 4) == s.schemaVersion && ReadU16(bytes, 6) == s.driverProtocolVersion
            && ReadU64(bytes, 8) == s.bootId && ReadU64(bytes, 16) == s.daemonGeneration
            && ReadU64(bytes, 24) == s.appGeneration && ReadU64(bytes, 32) == s.createdAtMillis
            && bytes[40] == (if s.masterEnabled then 1 else 0) && bytes[41] == (if s.globalMode then 1 else 0)
            && bytes[42..44] == [0, 0]
            && ReadU32(bytes, 44) == |s.deviceKey| && ReadU32(bytes, 48) == |s.deviceKeyHash|
            && ReadU32(bytes, 52) == |s.parameters| && ReadU32(bytes, 56) == |s.iemParameters|
            && ReadU32(bytes, 60) == |s.resources|
            && ReadU64(bytes, 64) == s.resourceGeneration && ReadU64(bytes, 72) == s.graphGeneration
            && bytes[80..] == s.deviceKey + s.deviceKeyHash + s.parameters + s.iemParameters + PutResources(s.resources)
  {
    var h := HeaderOf(s, FlagByte(s.masterEnabled), FlagByte(s.globalMode), 0);
    var bytes := CanonicalWire(s);
    ReadsHeader([], h);
    CutsInThree(SNAPSHOT_MAGIC, PutHeader(h), Body(s));
    HoldsHeader(h, SNAPSHOT_MAGIC, Body(s));
    hide PutHeader;
    hide PutResources;
    hide HoldsFields;
    HeaderLiesThere(bytes, h);
    ZeroWord(bytes, 42);
    ByteIs(bytes[40], FlagByte(s.masterEnabled));
    ByteIs(bytes[41], FlagByte(s.globalMode));
  }

  lemma ZeroWord(bytes: Data, at: nat)
    requires at + 2 <= |bytes| && ReadU16(bytes, at) == 0
    ensures bytes[at..at + 2] == [0, 0]
  {
    ReadU16Is(bytes, at);
    ByteIs(bytes[at], 0);
    ByteIs(bytes[at + 1], 0);
  }

  lemma ByteIs(b: Byte, n: nat)
    ensures b as nat == n && n == 0 ==> b == 0
    ensures b as nat == n && n == 1 ==> b == 1
  {
  }

  /** Every field of an encoded resource, at its offset. */
  lemma ResourceLies(r: Resource)
    requires ResourceFits(r)
    ensures var bytes := PutResource(r);
            && |bytes| >= 32
            && ReadU32(bytes, 0) == |r.resourceId| && ReadU32(bytes, 4) == |r.contentSha256|
            && ReadU64(bytes, 8) == r.size && ReadU32(bytes, 16) == r.kind && ReadU32(bytes, 20) == r.format
            && ReadU32(bytes, 24) == r.channels && ReadU32(bytes, 28) == r.order
            && bytes[32..] == r.resourceId + r.contentSha256
  {
    hide *;
    ResourceHolds(r);
    ResourceLiesThere(PutResource(r), r);
  }

  lemma ResourceHolds(r: Resource)
    requires ResourceFits(r)
    ensures |PutResource(r)| >= 32 && PutResource(r)[32..] == r.resourceId + r.contentSha256
    ensures HoldsFields(PutResource(r), 0, RESOURCE_LAYOUT, ResourceFields(r))
  {
    hide Fits;
    hide PutFields;
    hide Width;
    hide HoldsFields;
    ResourceWidth();
    ResourceFieldsFit(r);
    var tail := r.resourceId + r.contentSha256;
    FieldsLead(RESOURCE_LAYOUT, ResourceFields(r), tail);
    assert PutResource(r) == PutFields(RESOURCE_LAYOUT, ResourceFields(r)) + tail;
  }

  lemma FieldsLead(layout: Layout, values: seq<nat>, tail: Data)
    requires Fits(layout, values)
    ensures HoldsFields(PutFields(layout, values) + tail, 0, layout, values)
    ensures (PutFields(layout, values) + tail)[Width(layout)..] == tail
  {
    CutsInThree([], PutFields(layout, values), tail);
    assert [] + PutFields(layout, values) + tail == PutFields(layout, values) + tail;
  }

  lemma ResourceLiesThere(bytes: Data, r: Resource)
    requires |bytes| >= 32 && HoldsFields(bytes, 0, RESOURCE_LAYOUT, ResourceFields(r))
    ensures ReadU32(bytes, 0) == |r.resourceId| && ReadU32(bytes, 4) == |r.contentSha256|
    ensures ReadU64(bytes, 8) == r.size && ReadU32(bytes, 16) == r.kind && ReadU32(bytes, 20) == r.format
    ensures ReadU32(bytes, 24) == r.channels && ReadU32(bytes, 28) == r.order
  {
    hide *;
    ResourceHalves(bytes, r);
    FourFields(bytes, 0, 4, 4, 8, 4, |r.resourceId|, |r.contentSha256|, r.size, r.kind);
    ThreeFields(bytes, 20, 4, 4, 4, r.format, r.channels, r.order);
    FieldIsWord(bytes, 0, |r.resourceId|);
    FieldIsWord(bytes, 4, |r.contentSha256|);
    FieldIsWord(bytes, 8, r.size);
    FieldIsWord(bytes, 16, r.kind);
    FieldIsWord(bytes, 20, r.format);
    FieldIsWord(bytes, 24, r.channels);
    FieldIsWord(bytes, 28, r.order);
  }

  lemma ResourceHalves(bytes: Data, r: Resource)
    requires HoldsFields(bytes, 0, RESOURCE_LAYOUT, ResourceFields(r))
    ensures HoldsFields(bytes, 0, [4, 4, 8, 4], [|r.resourceId|, |r.contentSha256|, r.size, r.kind])
    ensures HoldsFields(bytes, 20, [4, 4, 4], [r.format, r.channels, r.order])
  {
    hide HoldsFields;
    FieldsSplit(bytes, 0, RESOURCE_LAYOUT, ResourceFields(r), 4);
    WidthOfFour(4, 4, 8, 4);
    assert RESOURCE_LAYOUT[..4] == [4, 4, 8, 4] && RESOURCE_LAYOUT[4..] == [4, 4, 4];
    assert ResourceFields(r)[..4] == [|r.resourceId|, |r.contentSha256|, r.size, r.kind];
    assert ResourceFields(r)[4..] == [r.format, r.channels, r.order];
  }

  predicate IsHexAt(value: Data, i: nat)
    requires i < |value|
  {
    var c := value[i] as char;
    '0' <= c <= '9' || 'a' <= c <= 'f'
  }

  ghost predicate IsHash(value: Data) {
    |value| == 64 && forall i | 0 <= i < 64 :: IsHexAt(value, i)
  }

  ghost predicate IsResource(r: Resource) {
    1 <= |r.resourceId| <= 4096 && IsHash(r.contentSha256)
  }

  lemma HashIff(value: Data)
    ensures IsLowerHex64(value) <==> IsHash(value)
  {
    if IsHash(value) {
      forall i | 0 <= i < 64
        ensures IsLowerHexDigit(value[i])
      {
        assert IsHexAt(value, i);
      }
    }
  }

  /** What a valid snapshot is, field by field. */
  lemma ValidMeans(s: Snapshot, hash: Data -> Data)
    ensures IsValid(s, hash) <==>
              && s.schemaVersion == 1 && s.driverProtocolVersion == 1
              && 1 <= |s.deviceKey| <= 4096 && ('|' as Byte) in s.deviceKey
              && hash(s.deviceKey) == s.deviceKeyHash && IsHash(s.deviceKeyHash)
              && s.bootId >= 1 && s.daemonGeneration >= 1 && s.appGeneration >= 1 && s.createdAtMillis >= 1
              && |s.parameters| <= 1048576 && |s.iemParameters| <= 1048576 && |s.resources| <= 128
              && (forall r | r in s.resources :: IsResource(r))
              && (forall i, j | 0 <= i < |s.resources| && 0 <= j < |s.resources| && i != j ::
                    s.resources[i].resourceId != s.resources[j].resourceId
                    && s.resources[i].contentSha256 != s.resources[j].contentSha256)
  {
    HashIff(s.deviceKeyHash);
    forall r: Resource
      ensures ResourceFieldsOk(r) <==> IsResource(r)
    {
      HashIff(r.contentSha256);
    }
    hide IsLowerHex64;
    hide IsHash;
    hide ResourceFieldsOk;
    hide IsResource;
    if IsValid(s, hash) {
      forall r | r in s.resources
        ensures IsResource(r)
      {
        assert ResourceFieldsOk(r);
      }
    }
  }
}
