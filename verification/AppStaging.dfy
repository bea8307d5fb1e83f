/** The daemon's own copy of what the App streams to the driver, kept so that it can be stored. */
module AppStagings {
  import opened Bytes
  import opened Wrappers
  import opened Crc32s
  import opened ViperDaemonProtocol
  import opened SnapshotSchema
  import Command = SnapshotCommand

  /** A snapshot and the bytes it is sent as. */
  datatype Transfer = Transfer(snapshot: Snapshot, bytes: Data)

  /** The daemon's fields: the bytes so far, and what the App's begin announced. */
  datatype AppStaging = AppStaging(staging: bool, bytes: Data, total: U32, crc: U32)

  const NOTHING := AppStaging(false, [], 0, 0)

  function Cleared(a: AppStaging): AppStaging {
    a.(staging := false, bytes := [])
  }

  /** What the daemon keeps of a command before it relays it. */
  function Kept(a: AppStaging, c: Command.Command): AppStaging {
    match c
    case Begin(_, _, _, total, crc, _) => AppStaging(true, [], total, crc)
    case Chunk(offset, data) =>
      if !a.staging then a
      else if offset != |a.bytes| then a.(staging := false)
      else a.(bytes := a.bytes + data)
    case _ => a
  }

  /** What is stored when the driver has accepted the App's commit: the copy, if it is complete, decodes and is for the
      daemon's current route. */
  function Complete(a: AppStaging, route: Data, hash: Data -> Data): Option<Transfer> {
    if !a.staging || |a.bytes| != a.total || PayloadCrc(a.bytes) != a.crc then None
    else
      match DecodedSnapshot(a.bytes, hash)
      case Err(_) => None
      case Ok(snapshot) => if snapshot.deviceKeyHash != route then None else Some(Transfer(snapshot, a.bytes))
  }

  /** Only whole snapshots are stored, and only under the route they are for. */
  lemma CompleteIsValid(a: AppStaging, route: Data, hash: Data -> Data)
    requires Complete(a, route, hash).Some?
    ensures var t := Complete(a, route, hash).value;
            && t.bytes == a.bytes && IsValid(t.snapshot, hash) && t.snapshot.deviceKeyHash == route
            && DecodedSnapshot(t.bytes, hash) == Ok(t.snapshot)
  {
    hide DecodedSnapshot;
    hide PayloadCrc;
    hide IsValid;
    var master, global, reserved := DecodedIsWire(a.bytes, hash, Complete(a, route, hash).value.snapshot);
  }

  /** What the pieces of a snapshot amount to. */
  function Joined(pieces: seq<Data>): Data {
    if pieces == [] then [] else Joined(pieces[..|pieces| - 1]) + pieces[|pieces| - 1]
  }

  /** The copy after a run of chunks, each where the one before ended. */
  function Streamed(a: AppStaging, pieces: seq<Data>): AppStaging
    requires |Joined(pieces)| <= 0xFFFF_FFFF
  {
    if pieces == [] then a
    else
      var before := pieces[..|pieces| - 1];
      Kept(Streamed(a, before), Command.Chunk(|Joined(before)|, pieces[|pieces| - 1]))
  }

  lemma {:induction false} StreamedIsJoined(a: AppStaging, pieces: seq<Data>)
    requires |Joined(pieces)| <= 0xFFFF_FFFF && a.staging && a.bytes == []
    ensures Streamed(a, pieces) == a.(bytes := Joined(pieces))
  {
    if pieces != [] {
      StreamedIsJoined(a, pieces[..|pieces| - 1]);
    }
  }

  /** After a begin and a run of chunks the copy is complete exactly if the chunks amount to a snapshot for the current
      route, of the size and with the checksum that were announced; that snapshot is what is stored. */
  lemma StoredIff(a: AppStaging, begin: Command.Command, pieces: seq<Data>, route: Data, hash: Data -> Data, t: Transfer)
    requires begin.Begin? && |Joined(pieces)| <= 0xFFFF_FFFF
    ensures Complete(Streamed(Kept(a, begin), pieces), route, hash) == Some(t) <==>
              && t.bytes == Joined(pieces) && |t.bytes| == begin.totalSize
              && CrcValue(Checksum(t.bytes)) == begin.crc32
              && DecodedSnapshot(t.bytes, hash) == Ok(t.snapshot) && t.snapshot.deviceKeyHash == route
  {
    StreamedIsJoined(Kept(a, begin), pieces);
    hide DecodedSnapshot;
    hide Checksum;
    hide CrcValue;
    hide Streamed;
    hide Joined;
  }

  class AppStager {
    const hash: Data -> Data
    var staging: bool
    var bytes: Data
    var total: U32
    var crc: U32
    var stored: seq<Transfer>

    ghost function Fields(): AppStaging
      reads this
    {
      AppStaging(staging, bytes, total, crc)
    }

    constructor (h: Data -> Data)
      ensures hash == h && Fields() == NOTHING && stored == []
    {
      hash := h;
      staging, bytes, total, crc := false, [], 0, 0;
      stored := [];
    }

    method StageAppSnapshotCommand(messageType: U16, payload: Data)
      modifies this
      ensures stored == old(stored)
      ensures Fields() == match Command.DecodeCommand(messageType, payload)
                          case Some(c) => Kept(old(Fields()), c)
                          case None => if messageType == Command.TYPE_CHUNK then old(Fields()).(staging := false)
                                       else old(Fields())
    {
      var decoded := Command.DecodeCommand(messageType, payload);
      if decoded.None? {
        if messageType == Command.TYPE_CHUNK && staging {
          staging := false;
        }
        return;
      }
      match decoded.value {
        case Begin(_, _, _, size, crc32, _) =>
          bytes := [];
          total, crc := size, crc32;
          staging := true;
        case Chunk(offset, data) =>
          if !staging {
            return;
          }
          if offset != |bytes| {
            staging := false;
            return;
          }
          bytes := bytes + data;
        case _ =>
      }
    }

    /** Called when the driver has accepted the App's commit. */
    method CommitStagedAppSnapshot(route: Data)
      modifies this
      ensures var complete := Complete(old(Fields()), route, hash);
              stored == if complete.Some? then old(stored) + [complete.value] else old(stored)
      ensures !staging && (old(staging) ==> bytes == [])
    {
      if !staging {
        return;
      }
      staging := false;
      var all := bytes;
      bytes := [];
      if |all| != total || PayloadCrc(all) != crc {
        return;
      }
      var decoded := DecodedSnapshot(all, hash);
      if decoded.Err? || decoded.value.deviceKeyHash != route {
        return;
      }
      stored := stored + [Transfer(decoded.value, all)];
    }
  }
}
