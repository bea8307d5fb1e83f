/** The payloads of the commands a daemon sends to the driver. */
module SnapshotCommand {
  import opened Bytes
  import opened SnapshotSchema
  import opened Wrappers

  const COMMAND_VERSION: U16 := 1
  const HASH_SIZE: nat := 64
  const BEGIN_SIZE: nat := 96
  const CHUNK_HEADER_SIZE: nat := 16
  const COMMIT_SIZE: nat := 24
  const ABORT_SIZE: nat := 16
  const ROUTE_SIZE: nat := 72
  const MAX_CHUNK_BYTES: nat := 64 * 1024

  const TYPE_BEGIN: U16 := 100
  const TYPE_CHUNK: U16 := 101
  const TYPE_COMMIT: U16 := 102
  const TYPE_ABORT: U16 := 103
  const TYPE_ROUTE: U16 := 104

  datatype Command =
    | Begin(version: U16, appGeneration: U64, daemonGeneration: U64, totalSize: U32, crc32: U32, keyHash: Data)
    | Chunk(offset: U32, data: Data)
    | Commit(appGeneration: U64, daemonGeneration: U64)
    | Abort(reason: U32)
    | Route(version: U16, keyHash: Data)

  function TypeOf(c: Command): U16 {
    match c
    case Begin(_, _, _, _, _, _) => TYPE_BEGIN
    case Chunk(_, _) => TYPE_CHUNK
    case Commit(_, _) => TYPE_COMMIT
    case Abort(_) => TYPE_ABORT
    case Route(_, _) => TYPE_ROUTE
  }

  predicate IsCommandType(value: U16) {
    TYPE_BEGIN <= value <= TYPE_ROUTE
  }

  /** What both the encoders and the decoders demand. */
  predicate Allowed(c: Command) {
    match c
    case Begin(version, app, daemon, size, _, hash) =>
      version == COMMAND_VERSION && IsLowerHex64(hash) && 0 < size <= MAX_SNAPSHOT_SIZE && app != 0 && daemon != 0
    case Chunk(_, data) => 0 < |data| <= MAX_CHUNK_BYTES
    case Commit(app, daemon) => app != 0 && daemon != 0
    case Abort(_) => true
    case Route(version, hash) => version == COMMAND_VERSION && (hash == [] || IsLowerHex64(hash))
  }

  const BEGIN_LAYOUT: Layout := [2, 2, 4, 8, 8, 4, 4]
  const CHUNK_LAYOUT: Layout := [4, 4, 8]
  const COMMIT_LAYOUT: Layout := [8, 8, 8]
  const ABORT_LAYOUT: Layout := [4, 4, 8]
  const ROUTE_LAYOUT: Layout := [2, 2, 4]

  function LayoutOf(c: Command): Layout {
    match c
    case Begin(_, _, _, _, _, _) => BEGIN_LAYOUT
    case Chunk(_, _) => CHUNK_LAYOUT
    case Commit(_, _) => COMMIT_LAYOUT
    case Abort(_) => ABORT_LAYOUT
    case Route(_, _) => ROUTE_LAYOUT
  }

  /** The fixed fields in wire order, reserved ones zero. */
  function FieldsOf(c: Command): (values: seq<nat>)
    ensures |values| == |LayoutOf(c)|
  {
    match c
    case Begin(version, app, daemon, size, crc, hash) => [version, 0, size, app, daemon, crc, 0]
    case Chunk(offset, data) => [offset, |data|, 0]
    case Commit(app, daemon) => [app, daemon, 0]
    case Abort(reason) => [reason, 0, 0]
    case Route(version, hash) => [version, 0, |hash|]
  }

  function Zeros(n: nat): (zeros: Data)
    ensures |zeros| == n
  {
    seq(n, _ => 0)
  }

  function TailOf(c: Command): Data {
    match c
    case Begin(_, _, _, _, _, hash) => hash
    case Chunk(_, data) => data
    case Commit(_, _) => []
    case Abort(_) => []
    case Route(_, hash) => if hash == [] then Zeros(HASH_SIZE) else hash
  }

  function EncodeCommand(c: Command): Option<Data> {
    if Allowed(c) then Some(PutFields(LayoutOf(c), FieldsOf(c)) + TailOf(c)) else None
  }

  // ---------------------------------------------------------------- decoders

  function DecodeBegin(bytes: Data): Option<Command> {
    if |bytes| != BEGIN_SIZE then None
    else
      LayoutWidths();
      var v := ReadFields(BEGIN_LAYOUT, bytes);
      if v[0] != COMMAND_VERSION || v[1] != 0 || v[6] != 0 then None
      else
        WordSizes();
        var c := Begin(v[0], v[3], v[4], v[2], v[5], bytes[32..]);
        if Allowed(c) then Some(c) else None
  }

  function DecodeChunk(bytes: Data): Option<Command> {
    if |bytes| < CHUNK_HEADER_SIZE then None
    else
      LayoutWidths();
      var v := ReadFields(CHUNK_LAYOUT, bytes);
      if v[2] != 0 || v[1] == 0 || v[1] > MAX_CHUNK_BYTES || |bytes| - CHUNK_HEADER_SIZE != v[1] then None
      else
        WordSizes();
        Some(Chunk(v[0], bytes[CHUNK_HEADER_SIZE..]))
  }

  function DecodeCommit(bytes: Data): Option<Command> {
    if |bytes| != COMMIT_SIZE then None
    else
      LayoutWidths();
      var v := ReadFields(COMMIT_LAYOUT, bytes);
      if v[2] != 0 || v[0] == 0 || v[1] == 0 then None
      else
        WordSizes();
        Some(Commit(v[0], v[1]))
  }

  function DecodeAbort(bytes: Data): Option<Command> {
    if |bytes| != ABORT_SIZE then None
    else
      LayoutWidths();
      var v := ReadFields(ABORT_LAYOUT, bytes);
      if v[1] != 0 || v[2] != 0 then None
      else
        WordSizes();
        Some(Abort(v[0]))
  }

  function DecodeRoute(bytes: Data): Option<Command> {
    if |bytes| != ROUTE_SIZE then None
    else
      LayoutWidths();
      var v := ReadFields(ROUTE_LAYOUT, bytes);
      if v[0] != COMMAND_VERSION || v[1] != 0 then None
      else if v[2] != 0 && v[2] != HASH_SIZE then None
      else if v[2] == 0 then Some(Route(v[0], []))
      else if IsLowerHex64(bytes[8..]) then Some(Route(v[0], bytes[8..]))
      else None
  }

  function DecodeCommand(messageType: U16, bytes: Data): Option<Command> {
    if messageType == TYPE_BEGIN then DecodeBegin(bytes)
    else if messageType == TYPE_CHUNK then DecodeChunk(bytes)
    else if messageType == TYPE_COMMIT then DecodeCommit(bytes)
    else if messageType == TYPE_ABORT then DecodeAbort(bytes)
    else if messageType == TYPE_ROUTE then DecodeRoute(bytes)
    else None
  }

  function ReadFields(layout: Layout, bytes: Data): (values: seq<nat>)
    requires |bytes| >= Width(layout)
    ensures Fits(layout, values)
  {
    PutGetFields(layout, bytes[..Width(layout)]);
    GetFields(layout, bytes[..Width(layout)])
  }

  lemma LayoutWidths()
    ensures Width(BEGIN_LAYOUT) == 32 && Width(CHUNK_LAYOUT) == CHUNK_HEADER_SIZE
    ensures Width(COMMIT_LAYOUT) == COMMIT_SIZE && Width(ABORT_LAYOUT) == ABORT_SIZE && Width(ROUTE_LAYOUT) == 8
  {
    WidthOfFour(2, 2, 4, 8);
    WidthOfThree(8, 4, 4);
    WidthAppend([2, 2, 4, 8], [8, 4, 4]);
    assert BEGIN_LAYOUT == [2, 2, 4, 8] + [8, 4, 4];
    WidthOfThree(4, 4, 8);
    WidthOfThree(8, 8, 8);
    WidthOfThree(2, 2, 4);
  }

  // ---------------------------------------------------------------- round trips

  lemma FieldsFit(c: Command)
    requires Allowed(c)
    ensures Fits(LayoutOf(c), FieldsOf(c))
  {
    WordSizes();
  }

  /** The fields and tail of `c` are read off `bytes`. */
  ghost predicate Carries(bytes: Data, c: Command) {
    |bytes| >= Width(LayoutOf(c)) && ReadFields(LayoutOf(c), bytes) == FieldsOf(c)
    && bytes[Width(LayoutOf(c))..] == TailOf(c)
  }

  lemma EncodingCarries(bytes: Data, c: Command)
    requires Allowed(c)
    ensures EncodeCommand(c) == Some(bytes) <==> Carries(bytes, c)
  {
    FieldsFit(c);
    SplitsIntoFields(LayoutOf(c), bytes, FieldsOf(c), TailOf(c));
  }

  lemma CarriedIsDecoded(bytes: Data, c: Command)
    requires Allowed(c) && Carries(bytes, c)
    ensures DecodeCommand(TypeOf(c), bytes) == Some(c)
  {
    LayoutWidths();
    hide Width;
    hide ReadFields;
    hide IsLowerHex64;
    match c
    case Begin(_, _, _, _, _, hash) => assert |hash| == 64 by { LowerHexLength(hash); }
    case Chunk(_, _) =>
    case Commit(_, _) =>
    case Abort(_) =>
    case Route(_, hash) =>
      if hash != [] {
        LowerHexLength(hash);
      }
  }

  lemma LowerHexLength(hash: Data)
    requires IsLowerHex64(hash)
    ensures |hash| == HASH_SIZE
  {
  }

  lemma DecodedIsCarried(messageType: U16, bytes: Data, c: Command)
    requires DecodeCommand(messageType, bytes) == Some(c)
    ensures Allowed(c) && TypeOf(c) == messageType
    ensures Carries(bytes, c) <==> (c.Route? && c.keyHash == [] ==> bytes[8..] == Zeros(HASH_SIZE))
  {
    LayoutWidths();
    hide Width;
    hide ReadFields;
    hide IsLowerHex64;
    if messageType == TYPE_BEGIN {
      assert ReadFields(BEGIN_LAYOUT, bytes) == FieldsOf(c);
    } else if messageType == TYPE_CHUNK {
      assert ReadFields(CHUNK_LAYOUT, bytes) == FieldsOf(c);
    } else if messageType == TYPE_COMMIT {
      assert ReadFields(COMMIT_LAYOUT, bytes) == FieldsOf(c);
    } else if messageType == TYPE_ABORT {
      assert ReadFields(ABORT_LAYOUT, bytes) == FieldsOf(c);
    } else {
      assert ReadFields(ROUTE_LAYOUT, bytes) == FieldsOf(c);
    }
  }

  /** An encoded command is decoded back to itself, under its own message type. */
  lemma DecodeEncode(c: Command)
    requires Allowed(c)
    ensures DecodeCommand(TypeOf(c), EncodeCommand(c).value) == Some(c)
  {
    hide Carries;
    hide DecodeCommand;
    EncodingCarries(EncodeCommand(c).value, c);
    CarriedIsDecoded(EncodeCommand(c).value, c);
  }

  /** An announcement whose length field says that there is no route. */
  predicate IsClearing(messageType: U16, bytes: Data) {
    messageType == TYPE_ROUTE && |bytes| == ROUTE_SIZE && ReadU32(bytes, 4) == 0
  }

  lemma LengthField(bytes: Data)
    requires |bytes| == ROUTE_SIZE
    ensures Width(ROUTE_LAYOUT) == 8 && ReadFields(ROUTE_LAYOUT, bytes)[2] == ReadU32(bytes, 4)
  {
    LayoutWidths();
    var head := bytes[..8];
    assert ROUTE_LAYOUT[1..] == [2, 4] && [2, 4][1..] == [4];
    assert Width([4]) == 4 && Width([2, 4]) == 6;
    var later, last := GetFields([2, 4], head[2..]), GetFields([4], head[2..][2..]);
    assert GetFields(ROUTE_LAYOUT, head)[1..] == later && later[1..] == last;
    assert head[2..][2..][..4] == bytes[4..8];
  }

  /** A decoded command encodes to the bytes it came from, except that the padding of a cleared route is not looked
      at. */
  lemma EncodeDecode(messageType: U16, bytes: Data)
    requires DecodeCommand(messageType, bytes).Some?
    ensures var c := DecodeCommand(messageType, bytes).value;
            && Allowed(c) && TypeOf(c) == messageType
            && (EncodeCommand(c) == Some(bytes) <==> (IsClearing(messageType, bytes) ==> bytes[8..] == Zeros(HASH_SIZE)))
  {
    var c := DecodeCommand(messageType, bytes).value;
    DecodedIsCarried(messageType, bytes, c);
    EncodingCarries(bytes, c);
    if messageType == TYPE_ROUTE {
      LengthField(bytes);
      ClearingDecodes(bytes);
    }
    hide EncodeCommand;
    hide DecodeCommand;
    hide ReadU32;
    hide Carries;
    hide IsLowerHex64;
  }

  lemma ClearingDecodes(bytes: Data)
    requires DecodeCommand(TYPE_ROUTE, bytes).Some?
    ensures |bytes| == ROUTE_SIZE
    ensures DecodeCommand(TYPE_ROUTE, bytes).value.keyHash == [] <==> ReadU32(bytes, 4) == 0
  {
    LengthField(bytes);
    hide ReadFields;
    hide ReadU32;
    hide IsLowerHex64;
  }

  /** A cleared route with other padding is accepted, and encoded differently. */
  lemma PaddingIsIgnored(padding: Data)
    requires |padding| == HASH_SIZE
    ensures var bytes := PutFields(ROUTE_LAYOUT, [COMMAND_VERSION, 0, 0]) + padding;
            && DecodeCommand(TYPE_ROUTE, bytes) == Some(Route(COMMAND_VERSION, []))
            && (EncodeCommand(Route(COMMAND_VERSION, [])) == Some(bytes) <==> padding == Zeros(HASH_SIZE))
  {
    WordSizes();
    LayoutWidths();
    var fields := [COMMAND_VERSION, 0, 0];
    var fixed := PutFields(ROUTE_LAYOUT, fields);
    SplitsIntoFields(ROUTE_LAYOUT, fixed + padding, fields, padding);
    hide Width;
    hide GetFields;
    hide PutFields;
    hide Fits;
    CutApart(fixed, padding);
    CutApart(fixed, Zeros(HASH_SIZE));
  }

  // ---------------------------------------------------------------- where everything lies on the wire

  lemma HoldsCommand(c: Command)
    requires Allowed(c)
    ensures var bytes := EncodeCommand(c).value;
            && HoldsFields(bytes, 0, LayoutOf(c), FieldsOf(c)) && |bytes| == Width(LayoutOf(c)) + |TailOf(c)|
            && bytes[Width(LayoutOf(c))..] == TailOf(c)
  {
    FieldsFit(c);
    CutApart(PutFields(LayoutOf(c), FieldsOf(c)), TailOf(c));
    hide PutFields;
    hide Width;
    hide Fits;
    hide IsLowerHex64;
  }

  /** Every field of an encoded begin, at its offset. */
  lemma BeginLayout(c: Command)
    requires Allowed(c) && c.Begin?
    ensures var bytes := EncodeCommand(c).value;
            && TypeOf(c) == 100 && |bytes| == 96
            && ReadU16(bytes, 0) == 1 && ReadU16(bytes, 2) == 0 && ReadU32(bytes, 4) == c.totalSize
            && ReadU64(bytes, 8) == c.appGeneration && ReadU64(bytes, 16) == c.daemonGeneration
            && ReadU32(bytes, 24) == c.crc32 && ReadU32(bytes, 28) == 0 && bytes[32..] == c.keyHash
  {
    LayoutWidths();
    LowerHexLength(c.keyHash);
    HoldsCommand(c);
    hide HoldsFields;
    hide Width;
    hide PutFields;
    hide IsLowerHex64;
    BeginLies(EncodeCommand(c).value, c.version, c.totalSize, c.appGeneration, c.daemonGeneration, c.crc32);
    hide ReadU16;
    hide ReadU32;
    hide ReadU64;
  }

  lemma BeginLies(bytes: Data, version: nat, size: nat, app: nat, daemon: nat, crc: nat)
    requires |bytes| >= 32 && HoldsFields(bytes, 0, BEGIN_LAYOUT, [version, 0, size, app, daemon, crc, 0])
    ensures ReadU16(bytes, 0) == version && ReadU16(bytes, 2) == 0 && ReadU32(bytes, 4) == size
    ensures ReadU64(bytes, 8) == app && ReadU64(bytes, 16) == daemon
    ensures ReadU32(bytes, 24) == crc && ReadU32(bytes, 28) == 0
  {
    hide *;
    BeginParts(bytes, version, size, app, daemon, crc);
    FourFields(bytes, 0, 2, 2, 4, 8, version, 0, size, app);
    ThreeFields(bytes, 16, 8, 4, 4, daemon, crc, 0);
    FieldIsWord(bytes, 0, version);
    FieldIsWord(bytes, 2, 0);
    FieldIsWord(bytes, 4, size);
    FieldIsWord(bytes, 8, app);
    FieldIsWord(bytes, 16, daemon);
    FieldIsWord(bytes, 24, crc);
    FieldIsWord(bytes, 28, 0);
  }

  lemma BeginParts(bytes: Data, version: nat, size: nat, app: nat, daemon: nat, crc: nat)
    requires HoldsFields(bytes, 0, BEGIN_LAYOUT, [version, 0, size, app, daemon, crc, 0])
    ensures HoldsFields(bytes, 0, [2, 2, 4, 8], [version, 0, size, app])
    ensures HoldsFields(bytes, 16, [8, 4, 4], [daemon, crc, 0])
  {
    hide HoldsFields;
    var fields := [version, 0, size, app, daemon, crc, 0];
    FieldsSplit(bytes, 0, BEGIN_LAYOUT, fields, 4);
    WidthOfFour(2, 2, 4, 8);
    assert BEGIN_LAYOUT[..4] == [2, 2, 4, 8] && BEGIN_LAYOUT[4..] == [8, 4, 4];
    assert fields[..4] == [version, 0, size, app] && fields[4..] == [daemon, crc, 0];
  }

  lemma ThreeWords(bytes: Data, a: nat, b: nat, c: nat, x: nat, y: nat, z: nat)
    requires HoldsFields(bytes, 0, [a, b, c], [x, y, z])
    ensures HoldsField(bytes, 0, a, x) && HoldsField(bytes, a, b, y) && HoldsField(bytes, a + b, c, z)
    ensures a == 4 ==> ReadU32(bytes, 0) == x
    ensures a == 8 ==> ReadU64(bytes, 0) == x
    ensures a == 4 && b == 4 ==> ReadU32(bytes, 4) == y
    ensures a == 8 && b == 8 ==> ReadU64(bytes, 8) == y
    ensures a + b == 8 && c == 8 ==> ReadU64(bytes, 8) == z
    ensures a + b == 16 && c == 8 ==> ReadU64(bytes, 16) == z
    ensures a == b == 2 && c == 4 ==> ReadU16(bytes, 0) == x && ReadU16(bytes, 2) == y && ReadU32(bytes, 4) == z
  {
    hide *;
    ThreeFields(bytes, 0, a, b, c, x, y, z);
    FieldIsWord(bytes, 0, x);
    FieldIsWord(bytes, a, y);
    FieldIsWord(bytes, a + b, z);
  }

  /** Those of the other commands; the key hash of a cleared route is all zeros. */
  lemma CommandLayout(c: Command)
    requires Allowed(c)
    ensures var bytes := EncodeCommand(c).value;
            match c
            case Begin(_, _, _, _, _, _) => |bytes| == 96
            case Chunk(offset, data) =>
              && TypeOf(c) == 101 && |bytes| == 16 + |data| && ReadU32(bytes, 0) == offset && ReadU32(bytes, 4) == |data|
              && ReadU64(bytes, 8) == 0 && bytes[16..] == data
            case Commit(app, daemon) =>
              && TypeOf(c) == 102 && |bytes| == 24 && ReadU64(bytes, 0) == app && ReadU64(bytes, 8) == daemon
              && ReadU64(bytes, 16) == 0
            case Abort(reason) =>
              && TypeOf(c) == 103 && |bytes| == 16 && ReadU32(bytes, 0) == reason && ReadU32(bytes, 4) == 0
              && ReadU64(bytes, 8) == 0
            case Route(version, hash) =>
              && TypeOf(c) == 104 && |bytes| == 72 && ReadU16(bytes, 0) == 1 && ReadU16(bytes, 2) == 0
              && ReadU32(bytes, 4) == |hash| && bytes[8..] == if hash == [] then Zeros(64) else hash
  {
    var bytes := EncodeCommand(c).value;
    LayoutWidths();
    HoldsCommand(c);
    hide HoldsFields;
    hide HoldsField;
    hide Width;
    hide PutFields;
    hide ReadU16;
    hide ReadU32;
    hide ReadU64;
    hide EncodeCommand;
    match c
    case Begin(_, _, _, _, _, hash) => LowerHexLength(hash);
    case Chunk(offset, data) => ThreeWords(bytes, 4, 4, 8, offset, |data|, 0);
    case Commit(app, daemon) => ThreeWords(bytes, 8, 8, 8, app, daemon, 0);
    case Abort(reason) => ThreeWords(bytes, 4, 4, 8, reason, 0, 0);
    case Route(version, hash) =>
      if hash != [] {
        LowerHexLength(hash);
      }
      ThreeWords(bytes, 2, 2, 4, version, 0, |hash|);
  }

  /** What can be sent: a snapshot of at most four mebibytes, in chunks of at most 64 kibibytes, none of them empty. */
  lemma EncodesIff(c: Command)
    ensures EncodeCommand(c).Some? <==>
              match c
              case Begin(version, app, daemon, size, _, hash) =>
                version == 1 && app >= 1 && daemon >= 1 && 1 <= size <= 4194304 && IsHash(hash)
              case Chunk(_, data) => 1 <= |data| <= 65536
              case Commit(app, daemon) => app >= 1 && daemon >= 1
              case Abort(_) => true
              case Route(version, hash) => version == 1 && (hash == [] || IsHash(hash))
  {
    if c.Begin? || c.Route? {
      HashIff(c.keyHash);
    }
  }
}
