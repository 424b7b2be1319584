/** The messages of the file-transfer protocol: field widths, limits and the
    decoded form of every packet that `common/protocol.h` lays out. */
module Protocol {

  type Byte = b: int | 0 <= b < 0x100
  type Word16 = w: int | 0 <= w < 0x1_0000
  type Word32 = w: int | 0 <= w < 0x1_0000_0000

  datatype Option<+T> = None | Some(value: T)

  // A C string: its characters up to, and without, the terminating NUL.
  type Name = string

  const ETH_FRAME_LEN := 1514
  const ETH_ALEN := 6
  // The Ethernet header and the protocol header behind it.
  const COMBINED_HEADER_LEN := 26
  const FILE_TRANSFER_NAME_BYTES := 64
  const FILE_TRANSFER_CHUNK_BYTES := 512
  const RMTDOS_PATH_BYTES := 128
  const DIR_LIST_PAGE_ENTRIES := 16

  // Who sent a frame, and so who gets the answer.
  datatype Peer = Peer(mac: seq<Byte>, session: Word32)

  datatype AckCommand = AckBegin | AckData | AckEnd | AckMkdir | AckDelete | AckRename | AckCopy
  datatype AckStatus = AckOk | AckBusy | AckError

  // One directory entry as DOS reports it.
  datatype DirRecord = DirRecord(attributes: Byte, size: Word32, date: Word16, time: Word16, name: Name)

  // Client to server.
  datatype Request =
    | PutBegin(id: Word32, size: Word32, name: Name)
    | PutData(id: Word32, offset: Word32, count: Word16, body: seq<Byte>)
    | PutEnd(id: Word32, size: Word32)
    | GetBegin(id: Word32, name: Name)
    | GetDataReq(id: Word32, offset: Word32, count: Word16)
    | GetEnd(id: Word32)
    | DirBegin(rid: Word32, path: Name)
    | DirDataReq(rid: Word32, start: Word16, max: Word16)
    | DirEnd(rid: Word32)
    | Mkdir(id: Word32, flags: Word16, name: Name)
    | Delete(id: Word32, flags: Word16, name: Name)
    | Rename(id: Word32, name: Name, target: Name)
    | Copy(id: Word32, name: Name, target: Name)

  // Server to client.
  datatype Reply =
    | Ack(id: Word32, command: AckCommand, status: AckStatus, offset: Word32)
    | GetData(id: Word32, offset: Word32, status: AckStatus, data: seq<Byte>)
    | DirData(rid: Word32, start: Word16, status: AckStatus, entries: seq<DirRecord>)

  datatype Frame = Frame(peer: Peer, body: Request)
  datatype Datagram = Datagram(peer: Peer, reply: Reply)

  // Which reply answers which request.
  predicate RepliesTo(r: Request, m: Reply) {
    match r
    case PutBegin(id, _, _) => m.Ack? && m.id == id && m.command == AckBegin
    case PutData(id, _, _, _) => m.Ack? && m.id == id && m.command == AckData
    case PutEnd(id, _) => m.Ack? && m.id == id && m.command == AckEnd
    case GetBegin(id, _) => m.Ack? && m.id == id && m.command == AckBegin
    case GetDataReq(id, offset, _) => m.GetData? && m.id == id && m.offset == offset
    case GetEnd(id) => m.Ack? && m.id == id && m.command == AckEnd
    case DirBegin(_, _) => false
    case DirDataReq(rid, start, _) => m.DirData? && m.rid == rid && m.start == start
    case DirEnd(_) => false
    case Mkdir(id, _, _) => m.Ack? && m.id == id && m.command == AckMkdir
    case Delete(id, _, _) => m.Ack? && m.id == id && m.command == AckDelete
    case Rename(id, _, _) => m.Ack? && m.id == id && m.command == AckRename
    case Copy(id, _, _) => m.Ack? && m.id == id && m.command == AckCopy
  }

  // Directory requests carry a request id, all others a transfer id.
  predicate IsDirectoryRequest(r: Request) {
    r.DirBegin? || r.DirDataReq? || r.DirEnd?
  }

  // Pieces of at most `size` that n bytes or entries come in.
  function Pieces(n: nat, size: nat): nat
    requires size > 0
  {
    (n + size - 1) / size
  }

  function Min(a: int, b: int): int {
    if a <= b then a else b
  }
}
