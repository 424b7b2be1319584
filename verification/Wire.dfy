/** The packed big-endian layouts of `common/protocol.h`, as the client writes
    them and the server reads them on little-endian machines. */
module Wire {
  import opened Protocol
  import opened FileServerSpec

  // ---- Integers ------------------------------------------------------------

  function StoreWord16(x: Word16): seq<Byte> {
    [x % 0x100, x / 0x100]
  }

  function LoadWord16(b: seq<Byte>): Word16
    requires |b| == 2
  {
    b[0] as int + b[1] as int * 0x100
  }

  function StoreWord32(x: Word32): seq<Byte> {
    StoreWord16(x % 0x1_0000) + StoreWord16(x / 0x1_0000)
  }

  function LoadWord32(b: seq<Byte>): Word32
    requires |b| == 4
  {
    LoadWord16(b[..2]) as int + LoadWord16(b[2..]) as int * 0x1_0000
  }

  // htons: xchg al, ah.
  function Htons(x: Word16): Word16 {
    x % 0x100 * 0x100 + x / 0x100
  }

  // htonl: swaps the bytes of both words and the words.
  function Htonl(x: Word32): Word32 {
    Htons(x % 0x1_0000) * 0x1_0000 + Htons(x / 0x1_0000)
  }

  function Put16(x: Word16): (b: seq<Byte>)
    ensures |b| == 2
  {
    StoreWord16(Htons(x))
  }

  function Get16(b: seq<Byte>): Word16
    requires |b| == 2
  {
    Htons(LoadWord16(b))
  }

  function Put32(x: Word32): (b: seq<Byte>)
    ensures |b| == 4
  {
    StoreWord32(Htonl(x))
  }

  function Get32(b: seq<Byte>): Word32
    requires |b| == 4
  {
    Htonl(LoadWord32(b))
  }

  // Network byte order.
  function BigEndian16(x: Word16): seq<Byte> {
    [x / 0x100, x % 0x100]
  }

  function BigEndian32(x: Word32): seq<Byte> {
    BigEndian16(x / 0x1_0000) + BigEndian16(x % 0x1_0000)
  }

  // Every value leaves in network byte order and is read back as it was.
  lemma {:induction false} WordsTravel(x: Word16, y: Word32)
    ensures Put16(x) == BigEndian16(x) && Get16(Put16(x)) == x
    ensures Put32(y) == BigEndian32(y) && Get32(Put32(y)) == y
  {
    WordTravels(x);
    hide Htons, StoreWord16, LoadWord16, BigEndian16;
    WordTravels(y % 0x1_0000);
    WordTravels(y / 0x1_0000);
    LongTravels(y);
  }

  lemma {:induction false} LongTravels(y: Word32)
    ensures Put32(y) == Put16(y / 0x1_0000) + Put16(y % 0x1_0000)
    ensures Get32(Put32(y)) == y
  {
    hide Htons, StoreWord16, LoadWord16;
    var low, high, z := y % 0x1_0000, y / 0x1_0000, Htonl(y);
    WordTravels(low);
    WordTravels(high);
    assert z % 0x1_0000 == Htons(high) && z / 0x1_0000 == Htons(low);
    assert Put32(y)[..2] == Put16(high) && Put32(y)[2..] == Put16(low);
  }

  lemma WordTravels(x: Word16)
    ensures Htons(Htons(x)) == x && Put16(x) == BigEndian16(x) && Get16(Put16(x)) == x
    ensures LoadWord16(StoreWord16(x)) == x
  {
    var low, high := x % 0x100, x / 0x100;
    assert Htons(x) == low * 0x100 + high;
    assert Htons(x) % 0x100 == high && Htons(x) / 0x100 == low;
  }

  // ---- Strings -------------------------------------------------------------

  predicate CString(s: Name) {
    forall i :: 0 <= i < |s| ==> 0 < s[i] as int < 0x100
  }

  function Zeros(n: nat): (z: seq<Byte>)
    ensures |z| == n
  {
    seq(n, _ => 0)
  }

  // A zero-filled character array holding a string.
  function PutName(s: Name, size: nat): (b: seq<Byte>)
    requires CString(s) && |s| < size
    ensures |b| == size
  {
    seq(|s|, i requires 0 <= i < |s| => s[i] as int) + Zeros(size - |s|)
  }

  // The string in a character array whose last byte is made NUL.
  function GetName(b: seq<Byte>): Name {
    if |b| <= 1 || b[0] == 0 then "" else [b[0] as char] + GetName(b[1..])
  }

  lemma {:induction false} NameTravels(s: Name, size: nat)
    requires CString(s) && |s| < size
    ensures GetName(PutName(s, size)) == s
    decreases |s|
  {
    if s == "" {
      assert PutName(s, size)[0] == 0;
    } else {
      NameTravels(s[1..], size - 1);
      assert PutName(s, size)[1..] == PutName(s[1..], size - 1);
      assert PutName(s, size)[0] == s[0] as int;
    }
  }

  // ---- Requests ------------------------------------------------------------

  function TypeOf(r: Request): Word16 {
    match r
    case PutBegin(_, _, _) => 9
    case PutData(_, _, _, _) => 10
    case PutEnd(_, _) => 11
    case GetBegin(_, _) => 13
    case GetDataReq(_, _, _) => 14
    case GetEnd(_) => 16
    case DirBegin(_, _) => 17
    case DirDataReq(_, _, _) => 18
    case DirEnd(_) => 20
    case Mkdir(_, _, _) => 21
    case Delete(_, _, _) => 22
    case Rename(_, _, _) => 23
    case Copy(_, _, _) => 24
  }

  predicate FileName(s: Name) {
    CString(s) && |s| < FILE_TRANSFER_NAME_BYTES
  }

  // What a client puts on the wire.
  predicate Sendable(r: Request) {
    match r
    case PutBegin(_, _, name) => FileName(name)
    case PutData(_, _, count, body) => |body| == count <= FILE_TRANSFER_CHUNK_BYTES
    case GetBegin(_, name) => FileName(name)
    case DirBegin(_, path) => CString(path) && |path| < RMTDOS_PATH_BYTES
    case Mkdir(_, _, name) => FileName(name)
    case Delete(_, _, name) => FileName(name)
    case Rename(_, name, target) => FileName(name) && FileName(target)
    case Copy(_, name, target) => FileName(name) && FileName(target)
    case _ => true
  }

  function Encode(r: Request): seq<Byte>
    requires Sendable(r)
  {
    match r
    case PutBegin(id, size, name) => Put32(id) + Put32(size) + PutName(name, FILE_TRANSFER_NAME_BYTES)
    case PutData(id, offset, count, body) => Put32(id) + Put32(offset) + Put16(count) + body
    case PutEnd(id, size) => Put32(id) + Put32(size)
    case GetBegin(id, name) => Put32(id) + PutName(name, FILE_TRANSFER_NAME_BYTES)
    case GetDataReq(id, offset, count) => Put32(id) + Put32(offset) + Put16(count)
    case GetEnd(id) => Put32(id)
    case DirBegin(rid, path) => Put32(rid) + PutName(path, RMTDOS_PATH_BYTES)
    case DirDataReq(rid, start, max) => Put32(rid) + Put16(start) + Put16(max)
    case DirEnd(rid) => Put32(rid)
    case Mkdir(id, flags, name) => Put32(id) + Put16(flags) + Zeros(2) + PutName(name, FILE_TRANSFER_NAME_BYTES)
    case Delete(id, flags, name) => Put32(id) + Put16(flags) + Zeros(2) + PutName(name, FILE_TRANSFER_NAME_BYTES)
    case Rename(id, name, target) =>
      Put32(id) + PutName(name, FILE_TRANSFER_NAME_BYTES) + PutName(target, FILE_TRANSFER_NAME_BYTES)
    case Copy(id, name, target) =>
      Put32(id) + PutName(name, FILE_TRANSFER_NAME_BYTES) + PutName(target, FILE_TRANSFER_NAME_BYTES)
  }

  // The server's reading of a payload; None for the packets it drops because
  // they are shorter than their fixed part, or of another type.
  function Decode(pktType: Word16, p: seq<Byte>): Option<Request> {
    if pktType == 9 && |p| >= 72 then Some(PutBegin(Get32(p[..4]), Get32(p[4..8]), GetName(p[8..72])))
    else if pktType == 10 && |p| >= 10 then Some(PutData(Get32(p[..4]), Get32(p[4..8]), Get16(p[8..10]), p[10..]))
    else if pktType == 11 && |p| >= 8 then Some(PutEnd(Get32(p[..4]), Get32(p[4..8])))
    else if pktType == 13 && |p| >= 68 then Some(GetBegin(Get32(p[..4]), GetName(p[4..68])))
    else if pktType == 14 && |p| >= 10 then Some(GetDataReq(Get32(p[..4]), Get32(p[4..8]), Get16(p[8..10])))
    else if pktType == 16 && |p| >= 4 then Some(GetEnd(Get32(p[..4])))
    else if pktType == 17 && |p| >= 132 then Some(DirBegin(Get32(p[..4]), GetName(p[4..132])))
    else if pktType == 18 && |p| >= 8 then Some(DirDataReq(Get32(p[..4]), Get16(p[4..6]), Get16(p[6..8])))
    else if pktType == 20 && |p| >= 4 then Some(DirEnd(Get32(p[..4])))
    else if pktType == 21 && |p| >= 72 then Some(Mkdir(Get32(p[..4]), Get16(p[4..6]), GetName(p[8..72])))
    else if pktType == 22 && |p| >= 72 then Some(Delete(Get32(p[..4]), Get16(p[4..6]), GetName(p[8..72])))
    else if pktType == 23 && |p| >= 132 then Some(Rename(Get32(p[..4]), GetName(p[4..68]), GetName(p[68..132])))
    else if pktType == 24 && |p| >= 132 then Some(Copy(Get32(p[..4]), GetName(p[4..68]), GetName(p[68..132])))
    else None
  }

  lemma {:induction false} LeadingFields(r: Request)
    requires Sendable(r)
    ensures |Encode(r)| >= 4
    ensures Encode(r)[..4] == Put32(if IsDirectoryRequest(r) then r.rid else r.id)
    ensures r.PutBegin? || r.PutEnd? ==> Encode(r)[4..8] == Put32(r.size)
    ensures r.PutData? || r.GetDataReq? ==> Encode(r)[4..8] == Put32(r.offset) && Encode(r)[8..10] == Put16(r.count)
    ensures r.DirDataReq? ==> Encode(r)[4..6] == Put16(r.start) && Encode(r)[6..8] == Put16(r.max)
    ensures r.Mkdir? || r.Delete? ==> Encode(r)[4..6] == Put16(r.flags)
  {
    hide Put32, Put16, PutName;
    var e := Encode(r);
    match r {
      case PutBegin(id, size, name) => Field(Put32(id), Put32(size), PutName(name, FILE_TRANSFER_NAME_BYTES));
      case PutData(id, offset, count, body) =>
        assert e == Put32(id) + Put32(offset) + (Put16(count) + body);
        Field(Put32(id), Put32(offset), Put16(count) + body);
        Field(Put32(id) + Put32(offset), Put16(count), body);
      case PutEnd(id, size) => LastField(Put32(id), Put32(size));
      case GetDataReq(id, offset, count) =>
        Field(Put32(id), Put32(offset), Put16(count));
        LastField(Put32(id) + Put32(offset), Put16(count));
      case DirDataReq(rid, start, max) =>
        Field(Put32(rid), Put16(start), Put16(max));
        LastField(Put32(rid) + Put16(start), Put16(max));
      case Mkdir(id, flags, name) =>
        var rest := Zeros(2) + PutName(name, FILE_TRANSFER_NAME_BYTES);
        assert e == Put32(id) + Put16(flags) + rest;
        Field(Put32(id), Put16(flags), rest);
      case Delete(id, flags, name) =>
        var rest := Zeros(2) + PutName(name, FILE_TRANSFER_NAME_BYTES);
        assert e == Put32(id) + Put16(flags) + rest;
        Field(Put32(id), Put16(flags), rest);
      case _ =>
    }
  }

  lemma Field(before: seq<Byte>, field: seq<Byte>, rest: seq<Byte>)
    ensures (before + field + rest)[|before|..|before| + |field|] == field
    ensures (before + field + rest)[..|before|] == before
  {
  }

  lemma LastField(before: seq<Byte>, field: seq<Byte>)
    ensures (before + field)[|before|..|before| + |field|] == field
    ensures (before + field)[..|before|] == before
  {
  }

  lemma {:induction false} TrailingFields(r: Request)
    requires Sendable(r)
    ensures r.PutData? ==> Encode(r)[10..] == r.body
    ensures r.PutBegin? || r.Mkdir? || r.Delete? ==>
              |Encode(r)| == 72 && Encode(r)[8..72] == PutName(r.name, FILE_TRANSFER_NAME_BYTES)
    ensures r.GetBegin? ==> |Encode(r)| == 68 && Encode(r)[4..68] == PutName(r.name, FILE_TRANSFER_NAME_BYTES)
    ensures r.DirBegin? ==> |Encode(r)| == 132 && Encode(r)[4..132] == PutName(r.path, RMTDOS_PATH_BYTES)
    ensures r.Rename? || r.Copy? ==>
              && |Encode(r)| == 132
              && Encode(r)[4..68] == PutName(r.name, FILE_TRANSFER_NAME_BYTES)
              && Encode(r)[68..132] == PutName(r.target, FILE_TRANSFER_NAME_BYTES)
  {
    hide Put32, Put16, PutName;
  }

  // The server reads what the client wrote: every field, and every name that
  // fits its array.
  lemma {:induction false} RequestTravels(r: Request)
    requires Sendable(r)
    ensures Decode(TypeOf(r), Encode(r)) == Some(r)
  {
    hide Put32, Put16, PutName, Get32, Get16, GetName;
    LeadingFields(r);
    TrailingFields(r);
    NamesTravel(r);
    if IsDirectoryRequest(r) {
      WordsTravel(0, r.rid);
      if r.DirDataReq? {
        WordsTravel(r.start, 0);
        WordsTravel(r.max, 0);
      }
    } else {
      WordsTravel(0, r.id);
      match r
      case PutBegin(_, size, _) => WordsTravel(0, size);
      case PutData(_, offset, count, _) => WordsTravel(count, offset);
      case PutEnd(_, size) => WordsTravel(0, size);
      case GetDataReq(_, offset, count) => WordsTravel(count, offset);
      case Mkdir(_, flags, _) => WordsTravel(flags, 0);
      case Delete(_, flags, _) => WordsTravel(flags, 0);
      case _ =>
    }
  }

  lemma NamesTravel(r: Request)
    requires Sendable(r)
    ensures !IsDirectoryRequest(r) && !r.PutData? && !r.PutEnd? && !r.GetDataReq? && !r.GetEnd? ==>
              GetName(PutName(r.name, FILE_TRANSFER_NAME_BYTES)) == r.name
    ensures r.Rename? || r.Copy? ==> GetName(PutName(r.target, FILE_TRANSFER_NAME_BYTES)) == r.target
    ensures r.DirBegin? ==> GetName(PutName(r.path, RMTDOS_PATH_BYTES)) == r.path
  {
    if r.DirBegin? {
      NameTravels(r.path, RMTDOS_PATH_BYTES);
    } else if !IsDirectoryRequest(r) && !r.PutData? && !r.PutEnd? && !r.GetDataReq? && !r.GetEnd? {
      NameTravels(r.name, FILE_TRANSFER_NAME_BYTES);
      if r.Rename? || r.Copy? {
        NameTravels(r.target, FILE_TRANSFER_NAME_BYTES);
      }
    }
  }

  // A packet that is shorter than the fixed part of its type, or of a type that
  // is no file request, is dropped.
  lemma ShortIsDropped(pktType: Word16, p: seq<Byte>)
    ensures Decode(pktType, p).Some? <==>
              || (pktType == 9 && |p| >= 72) || (pktType == 10 && |p| >= 10) || (pktType == 11 && |p| >= 8)
              || (pktType == 13 && |p| >= 68) || (pktType == 14 && |p| >= 10) || (pktType == 16 && |p| >= 4)
              || (pktType == 17 && |p| >= 132) || (pktType == 18 && |p| >= 8) || (pktType == 20 && |p| >= 4)
              || (pktType in {21, 22} && |p| >= 72) || (pktType in {23, 24} && |p| >= 132)
    ensures Decode(pktType, p).Some? ==>
              var r := Decode(pktType, p).value;
              && TypeOf(r) == pktType
              && (pktType == 9 <==> r.PutBegin?) && (pktType == 10 <==> r.PutData?) && (pktType == 11 <==> r.PutEnd?)
              && (pktType == 13 <==> r.GetBegin?) && (pktType == 14 <==> r.GetDataReq?) && (pktType == 16 <==> r.GetEnd?)
              && (pktType == 17 <==> r.DirBegin?) && (pktType == 18 <==> r.DirDataReq?) && (pktType == 20 <==> r.DirEnd?)
              && (pktType == 21 <==> r.Mkdir?) && (pktType == 22 <==> r.Delete?)
              && (pktType == 23 <==> r.Rename?) && (pktType == 24 <==> r.Copy?)
  {
    hide Get32, Get16, GetName;
  }

  // A name goes character by character, and zeros fill the rest.
  lemma NameLies(s: Name, size: nat)
    requires CString(s) && |s| < size
    ensures forall i :: 0 <= i < size ==> PutName(s, size)[i] == if i < |s| then s[i] as int else 0
  {
  }

  // validate_remote_name: what the upload and download commands accept.
  predicate ValidRemoteName(s: Name) {
    s != "" && |s| < FILE_TRANSFER_NAME_BYTES && '/' !in s
  }

  // An empty name, one of 64 characters or more and one with a slash are refused.
  lemma RefusedNames(s: Name)
    ensures !ValidRemoteName(s) <==> |s| == 0 || |s| >= 64 || exists i :: 0 <= i < |s| && s[i] == '/'
  {
  }

  // Such a name, an argument of the command, fits the requests that carry it.
  lemma ValidNamesTravel(s: Name, id: Word32, size: Word32)
    requires ValidRemoteName(s) && CString(s)
    ensures Sendable(PutBegin(id, size, s)) && Decode(TypeOf(PutBegin(id, size, s)), Encode(PutBegin(id, size, s))) == Some(PutBegin(id, size, s))
    ensures Sendable(GetBegin(id, s)) && Decode(TypeOf(GetBegin(id, s)), Encode(GetBegin(id, s))) == Some(GetBegin(id, s))
  {
    hide Encode, Decode;
    RequestTravels(PutBegin(id, size, s));
    RequestTravels(GetBegin(id, s));
  }

  // ---- Ethernet frames -------------------------------------------------------

  const PACKET_SIGNATURE: Word32 := 0x7b6e_05b0

  function FrameBytes(dest: seq<Byte>, ethertype: Word16, f: Frame): seq<Byte>
    requires |dest| == ETH_ALEN && |f.peer.mac| == ETH_ALEN && Sendable(f.body)
    requires |Encode(f.body)| < 0x1_0000
  {
    dest + f.peer.mac + Put16(ethertype)
    + Put32(PACKET_SIGNATURE) + Put32(f.peer.session) + Put16(|Encode(f.body)|) + Put16(TypeOf(f.body))
    + Encode(f.body)
  }

  predicate Signed(b: seq<Byte>) {
    |b| >= COMBINED_HEADER_LEN && Get32(b[14..18]) == PACKET_SIGNATURE
  }

  lemma SignatureBytes(b: seq<Byte>)
    requires |b| >= COMBINED_HEADER_LEN
    ensures Signed(b) <==> b[14..18] == [0x7b, 0x6e, 0x05, 0xb0]
  {
    hide Get32;
    var s := b[14..18];
    LongReads(s);
    SignatureDigits(s[0], s[1], s[2], s[3]);
    assert s == [s[0], s[1], s[2], s[3]];
  }

  lemma SignatureDigits(a: Byte, b: Byte, c: Byte, d: Byte)
    ensures a as int * 0x100_0000 + b as int * 0x1_0000 + c as int * 0x100 + d as int == 0x7b6e_05b0
            <==> a == 0x7b && b == 0x6e && c == 0x05 && d == 0xb0
  {
  }

  // Four bytes are read as the number whose bytes they are.
  lemma LongReads(b: seq<Byte>)
    requires |b| == 4
    ensures Get32(b) == b[0] as int * 0x100_0000 + b[1] as int * 0x1_0000 + b[2] as int * 0x100 + b[3] as int
  {
    WordReads(b[..2]);
    WordReads(b[2..]);
    SwapsWords(LoadWord16(b[..2]), LoadWord16(b[2..]));
    hide LoadWord16, Htons, Htonl;
  }

  lemma WordReads(b: seq<Byte>)
    requires |b| == 2
    ensures Htons(LoadWord16(b)) == b[0] as int * 0x100 + b[1] as int
  {
  }

  lemma SwapsWords(low: Word16, high: Word16)
    ensures 0 <= low + high * 0x1_0000 < 0x1_0000_0000
    ensures Htonl(low + high * 0x1_0000) == Htons(low) * 0x1_0000 + Htons(high)
  {
    hide Htons;
  }

  // The file request in a received buffer: the payload length is the one the
  // header claims, as far as the buffer goes.
  function ParseFrame(b: seq<Byte>): Option<Frame>
    requires |b| >= COMBINED_HEADER_LEN
  {
    var claimed := Get16(b[22..24]);
    var payload := b[COMBINED_HEADER_LEN..Min(COMBINED_HEADER_LEN + claimed, |b|)];
    match Decode(Get16(b[24..26]), payload)
    case None => None
    case Some(r) => Some(Frame(Peer(b[6..12], Get32(b[18..22])), r))
  }

  lemma EncodeLength(r: Request)
    requires Sendable(r)
    ensures |Encode(r)| <= 10 + FILE_TRANSFER_CHUNK_BYTES
  {
    hide Put32, Put16, PutName;
  }

  lemma {:induction false} HeaderFields(dest: seq<Byte>, ethertype: Word16, f: Frame, rest: seq<Byte>)
    requires |dest| == ETH_ALEN && |f.peer.mac| == ETH_ALEN && Sendable(f.body)
    requires |Encode(f.body)| < 0x1_0000
    ensures var b := FrameBytes(dest, ethertype, f) + rest;
            && |b| == COMBINED_HEADER_LEN + |Encode(f.body)| + |rest|
            && b[6..12] == f.peer.mac && b[14..18] == Put32(PACKET_SIGNATURE) && b[18..22] == Put32(f.peer.session)
            && b[22..24] == Put16(|Encode(f.body)|) && b[24..26] == Put16(TypeOf(f.body))
            && b[COMBINED_HEADER_LEN..COMBINED_HEADER_LEN + |Encode(f.body)|] == Encode(f.body)
  {
    hide Put32, Put16, Encode;
  }

  // Whatever follows the frame in the buffer, the server finds the request, its
  // sender and its session.
  lemma {:induction false} FrameTravels(dest: seq<Byte>, ethertype: Word16, f: Frame, rest: seq<Byte>)
    requires |dest| == ETH_ALEN && |f.peer.mac| == ETH_ALEN && Sendable(f.body)
    ensures |Encode(f.body)| < 0x1_0000
    ensures var b := FrameBytes(dest, ethertype, f) + rest;
            Signed(b) && ParseFrame(b) == Some(f)
  {
    hide Put32, Put16, Get32, Get16, Encode, Decode;
    EncodeLength(f.body);
    HeaderFields(dest, ethertype, f, rest);
    WordsTravel(|Encode(f.body)|, PACKET_SIGNATURE);
    WordsTravel(TypeOf(f.body), f.peer.session);
    RequestTravels(f.body);
  }

  // ---- Directory entries -------------------------------------------------------

  const DOS_DTA_BYTES := 43
  const DOS_NAME_BYTES := 13
  const DIR_ENTRY_NAME_BYTES := 64

  // The DTA as DOS fills it: 21 bytes of search state, then little-endian
  // fields and the name.
  function DtaOf(search: seq<Byte>, e: DirRecord): seq<Byte>
    requires |search| == 21 && CString(e.name) && |e.name| < DOS_NAME_BYTES
  {
    search + [e.attributes] + StoreWord16(e.time) + StoreWord16(e.date) + StoreWord32(e.size)
    + PutName(e.name, DOS_NAME_BYTES)
  }

  // The record the server builds from it.
  function ReadDta(dta: seq<Byte>): DirRecord
    requires |dta| == DOS_DTA_BYTES
  {
    DirRecord(dta[21], LoadWord32(dta[26..30]), LoadWord16(dta[24..26]), LoadWord16(dta[22..24]), GetName(dta[30..43]))
  }

  function EntryBytes(e: DirRecord): (b: seq<Byte>)
    requires CString(e.name) && |e.name| < DIR_ENTRY_NAME_BYTES
    ensures |b| == 74
  {
    [e.attributes, 0] + Put32(e.size) + Put16(e.date) + Put16(e.time) + PutName(e.name, DIR_ENTRY_NAME_BYTES)
  }

  function ParseEntry(b: seq<Byte>): DirRecord
    requires |b| == 74
  {
    DirRecord(b[0], Get32(b[2..6]), Get16(b[6..8]), Get16(b[8..10]), GetName(b[10..74]))
  }

  lemma DtaFields(search: seq<Byte>, e: DirRecord)
    requires |search| == 21 && CString(e.name) && |e.name| < DOS_NAME_BYTES
    ensures var d := DtaOf(search, e);
            && |d| == DOS_DTA_BYTES && d[21] == e.attributes
            && d[22..24] == StoreWord16(e.time) && d[24..26] == StoreWord16(e.date)
            && d[26..30] == StoreWord32(e.size) && d[30..43] == PutName(e.name, DOS_NAME_BYTES)
  {
    hide StoreWord32, PutName;
    assert |StoreWord32(e.size)| == 4 by {
      StoredLength(e.size);
    }
  }

  lemma StoredLength(x: Word32)
    ensures |StoreWord32(x)| == 4 && LoadWord32(StoreWord32(x)) == x
  {
    WordTravels(x % 0x1_0000);
    WordTravels(x / 0x1_0000);
  }

  // An entry keeps every field on its way from DOS through the server and the
  // wire to the client.
  lemma EntryTravels(search: seq<Byte>, e: DirRecord)
    requires |search| == 21 && CString(e.name) && |e.name| < DOS_NAME_BYTES
    ensures |DtaOf(search, e)| == DOS_DTA_BYTES
    ensures ReadDta(DtaOf(search, e)) == e
    ensures ParseEntry(EntryBytes(e)) == e
  {
    DtaFields(search, e);
    StoredLength(e.size);
    WordTravels(e.time);
    WordTravels(e.date);
    NameTravels(e.name, DOS_NAME_BYTES);
    EntryFields(e);
    NameTravels(e.name, DIR_ENTRY_NAME_BYTES);
    WordsTravel(e.date, e.size);
  }

  lemma EntryFields(e: DirRecord)
    requires CString(e.name) && |e.name| < DIR_ENTRY_NAME_BYTES
    ensures var b := EntryBytes(e);
            && b[0] == e.attributes && b[2..6] == Put32(e.size) && b[6..8] == Put16(e.date) && b[8..10] == Put16(e.time)
            && b[10..74] == PutName(e.name, DIR_ENTRY_NAME_BYTES)
  {
    hide Put32, Put16, PutName;
  }
}
