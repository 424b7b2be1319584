/** What the DOS server does with its transfer state (`g_file`): a packet
    records one pending operation, and a later idle call runs it against DOS
    and answers. One call of either is one atomic step. */
module FileServerSpec {
  import opened Protocol
  import opened Dos

  datatype Mode = ModeNone | ModePut | ModeGet | ModeDir

  datatype Op =
    | OpNone | OpPutBegin | OpPutData | OpPutEnd | OpAck
    | OpGetBegin | OpGetDataReq | OpGetEnd | OpDirListDataReq
    | OpMkdir | OpDelete | OpRename | OpCopy

  type Chunk = c: seq<Byte> | |c| == FILE_TRANSFER_CHUNK_BYTES
    witness seq(FILE_TRANSFER_CHUNK_BYTES, _ => 0)

  datatype Fields = Fields(
    active: bool,
    mode: Mode,
    pending: Op,
    client: Peer,
    transferId: Word32,
    expected: Word32,
    size: Word32,
    handle: int,
    filename: Name,
    chunk: Chunk,
    chunkCount: Word16,
    chunkOffset: Word32,
    ackCommand: AckCommand,
    ackStatus: AckStatus,
    ackOffset: Word32,
    dirRequestId: Word32,
    dirStart: Word16,
    dirMax: Word16,
    pathOpFlags: Word16,
    target: Name,
    dirPath: Name)

  // `g_file`. A chunk waiting to be written fits the chunk buffer.
  type FileState = g: Fields | g.pending == OpPutData ==> g.chunkCount <= FILE_TRANSFER_CHUNK_BYTES
    witness Fields(false, ModeNone, OpNone, Peer([], 0), 0, 0, 0, -1, "", seq(FILE_TRANSFER_CHUNK_BYTES, _ => 0),
                   0, 0, AckBegin, AckOk, 0, 0, 0, 0, 0, "", "")

  const FILE_PATH_OP_DIRECTORY := 1

  // One round of the copy loop: what the read and the write would yield.
  datatype CopyRound = CopyRound(read: int, written: int)

  // What DOS answers during one idle call. A handle below zero and a count
  // below zero are failures.
  datatype Answers = Answers(
    handle: int,
    secondHandle: int,
    read: int,
    written: int,
    seekOk: bool,
    findOk: bool,
    done: bool,
    rounds: seq<CopyRound>)

  datatype Outcome = Outcome(g: FileState, d: Disk, out: seq<Datagram>)

  // ---- Receiving a packet ------------------------------------------------

  function QueueAck(g: FileState, peer: Peer, id: Word32, command: AckCommand, status: AckStatus): FileState {
    if g.pending != OpNone then g
    else g.(client := peer, transferId := id, ackCommand := command, ackStatus := status,
            ackOffset := g.expected, pending := OpAck)
  }

  function Filled(chunk: Chunk, data: seq<Byte>): Chunk
    requires |data| <= FILE_TRANSFER_CHUNK_BYTES
  {
    data + chunk[|data|..]
  }

  predicate InTransfer(g: FileState, mode: Mode, id: Word32) {
    g.active && g.mode == mode && g.transferId == id
  }

  function HandlePutData(g: FileState, peer: Peer, id: Word32, offset: Word32, count: Word16, body: seq<Byte>): FileState
    requires g.pending == OpNone
  {
    if !InTransfer(g, ModePut, id) then g
    else if offset != g.expected then QueueAck(g, peer, id, AckData, AckOk)
    else if count > FILE_TRANSFER_CHUNK_BYTES || |body| < count then QueueAck(g, peer, id, AckData, AckError)
    else g.(client := peer, chunkOffset := offset, chunkCount := count,
            chunk := Filled(g.chunk, body[..count]), pending := OpPutData)
  }

  // A second packet is ignored until the pending operation has run.
  function Handle(g: FileState, f: Frame): FileState {
    if g.pending != OpNone then g
    else
      match f.body
      case PutBegin(id, size, name) =>
        g.(client := f.peer, transferId := id, size := size, filename := name, pending := OpPutBegin)
      case PutData(id, offset, count, body) =>
        HandlePutData(g, f.peer, id, offset, count, body)
      case PutEnd(id, size) =>
        if !InTransfer(g, ModePut, id) || size != g.size then g
        else g.(client := f.peer, pending := OpPutEnd)
      case GetBegin(id, name) =>
        g.(client := f.peer, transferId := id, filename := name, pending := OpGetBegin)
      case GetDataReq(id, offset, count) =>
        if !InTransfer(g, ModeGet, id) then g
        else g.(client := f.peer, chunkOffset := offset, chunkCount := count, pending := OpGetDataReq)
      case GetEnd(id) =>
        if !InTransfer(g, ModeGet, id) then g
        else g.(client := f.peer, pending := OpGetEnd)
      case DirBegin(rid, path) =>
        g.(client := f.peer, dirRequestId := rid, dirPath := path, active := true, mode := ModeDir)
      case DirDataReq(rid, start, max) =>
        if !g.active || g.mode != ModeDir || rid != g.dirRequestId then g
        else g.(client := f.peer, dirStart := start, dirMax := max, pending := OpDirListDataReq)
      case DirEnd(rid) =>
        if rid != g.dirRequestId then g
        else g.(active := false, mode := ModeNone, dirRequestId := 0)
      case Mkdir(id, flags, name) =>
        g.(client := f.peer, transferId := id, pathOpFlags := flags, filename := name, pending := OpMkdir)
      case Delete(id, flags, name) =>
        g.(client := f.peer, transferId := id, pathOpFlags := flags, filename := name, pending := OpDelete)
      case Rename(id, name, target) =>
        g.(client := f.peer, transferId := id, filename := name, target := target, pending := OpRename)
      case Copy(id, name, target) =>
        g.(client := f.peer, transferId := id, filename := name, target := target, pending := OpCopy)
  }

  // ---- Running the pending operation ---------------------------------------

  function Acked(g: FileState, d: Disk, command: AckCommand, status: AckStatus): Outcome {
    Outcome(g, d, [Datagram(g.client, Ack(g.transferId, command, status, g.expected))])
  }

  function OkIf(ok: bool): AckStatus {
    if ok then AckOk else AckError
  }

  function IdlePutBegin(g: FileState, d: Disk, a: Answers): Outcome {
    var d1 := if g.active then Close(d, g.handle) else d;
    var (d2, h) := Create(d1, g.filename, a.handle);
    var ok := h >= 0;
    Acked(g.(handle := h, expected := 0, active := ok, mode := if ok then ModePut else ModeNone),
          d2, AckBegin, OkIf(ok))
  }

  function IdlePutData(g: FileState, d: Disk, a: Answers): Outcome
    requires g.pending == OpNone && g.chunkCount <= FILE_TRANSFER_CHUNK_BYTES
  {
    if g.chunkOffset != g.expected then Acked(g, d, AckData, AckError)
    else
      var (d1, n) := Write(d, g.handle, g.chunk[..g.chunkCount], a.written);
      if n != g.chunkCount then Acked(g, d1, AckData, AckError)
      else Acked(g.(expected := (g.expected + g.chunkCount) % 0x1_0000_0000), d1, AckData, AckOk)
  }

  function Deactivated(g: FileState): FileState {
    g.(handle := -1, active := false, mode := ModeNone)
  }

  function IdlePutEnd(g: FileState, d: Disk): Outcome {
    Acked(Deactivated(g), Close(d, g.handle), AckEnd, OkIf(g.expected == g.size))
  }

  // A find-first by name on the server's own DTA, the program's DTA restored.
  function FileSize(d: Disk, name: Name, findOk: bool): (r: (Disk, Word32)) {
    var saved := d.dta;
    var (d1, ok) := FindFirst(SetDta(d, ServerDta), name, findOk);
    var size := if ok then d1.found[ServerDta][0].size else 0xffff_ffff;
    (SetDta(d1, saved), size)
  }

  function IdleGetBegin(g: FileState, d: Disk, a: Answers): Outcome {
    var d1 := if g.active then Close(d, g.handle) else d;
    var (d2, h) := OpenRead(d1, g.filename, a.handle);
    var (d3, size) := if h >= 0 then FileSize(d2, g.filename, a.findOk) else (d2, 0);
    if h >= 0 && size != 0xffff_ffff then
      var g1 := g.(handle := h, active := true, mode := ModeGet, expected := 0, size := size);
      Outcome(g1, d3, [Datagram(g1.client, Ack(g1.transferId, AckBegin, AckOk, size))])
    else
      Acked(Deactivated(g).(expected := 0, size := size), Close(d3, h), AckBegin, AckError)
  }

  function GetDataSent(g: FileState, d: Disk, status: AckStatus): Outcome
    requires g.chunkCount <= FILE_TRANSFER_CHUNK_BYTES
  {
    Outcome(g, d, [Datagram(g.client, GetData(g.transferId, g.chunkOffset, status, g.chunk[..g.chunkCount]))])
  }

  function IdleGetDataReq(g: FileState, d: Disk, a: Answers): Outcome {
    if !g.active || g.mode != ModeGet || g.chunkCount > FILE_TRANSFER_CHUNK_BYTES || g.chunkOffset > g.size then
      GetDataSent(g.(chunkCount := 0), d, AckError)
    else
      var (d1, at) := Seek(d, g.handle, g.chunkOffset, a.seekOk);
      if at == 0xffff_ffff then GetDataSent(g.(chunkCount := 0), d1, AckError)
      else
        var (d2, n, data) := Read(d1, g.handle, g.chunkCount, a.read);
        if n < 0 then GetDataSent(g.(chunkCount := 0), d2, AckError)
        else
          GetDataSent(g.(chunk := Filled(g.chunk, data), chunkCount := n,
                         expected := (g.chunkOffset + n) % 0x1_0000_0000), d2, AckOk)
  }

  function IdleGetEnd(g: FileState, d: Disk): Outcome {
    Acked(Deactivated(g), Close(d, g.handle), AckEnd, AckOk)
  }

  // ---- Directory pages -----------------------------------------------------

  function Translated(path: Name): Name {
    seq(|path|, i requires 0 <= i < |path| => if path[i] == '/' then '\\' else path[i])
  }

  predicate HasWildcard(s: Name) {
    exists i :: 0 <= i < |s| && (s[i] == '*' || s[i] == '?')
  }

  const PATTERN_BYTES := RMTDOS_PATH_BYTES + 5

  // The search pattern for a directory path; None when it does not fit.
  function DirPattern(path: Name): Option<Name> {
    var p := Translated(if path == "" then "." else path);
    if |p| >= PATTERN_BYTES then None
    else if HasWildcard(p) then Some(p)
    else if p[|p| - 1] == '\\' then
      if |p| + 4 >= PATTERN_BYTES then None else Some(p + "*.*")
    else
      if |p| + 5 >= PATTERN_BYTES then None else Some(p + "\\*.*")
  }

  // The find loop from the record in the DTA on: `seen` records were passed,
  // `taken` were collected. Returns what was collected and the records the
  // search still holds.
  function Scan(records: seq<DirRecord>, seen: Word16, start: Word16, max: nat, taken: seq<DirRecord>)
    : (r: (seq<DirRecord>, seq<DirRecord>))
    requires records != []
    decreases |records|
  {
    var taken' := if seen >= start && |taken| < max then taken + [records[0]] else taken;
    if |taken'| < max && |records| > 1
    then Scan(records[1..], (seen + 1) % 0x1_0000, start, max, taken')
    else (taken', records)
  }

  function CollectDirEntries(d: Disk, path: Name, start: Word16, max: nat, findOk: bool)
    : (r: (Disk, AckStatus, seq<DirRecord>))
  {
    match DirPattern(path)
    case None => (d, AckError, [])
    case Some(pattern) =>
      var saved := d.dta;
      var (d1, ok) := FindFirst(SetDta(d, ServerDta), pattern, findOk);
      if !ok then (SetDta(d1, saved), AckOk, [])
      else
        var (taken, rest) := Scan(d1.found[ServerDta], 0, start, Min(max, DIR_LIST_PAGE_ENTRIES), []);
        (SetDta(d1.(found := d1.found[ServerDta := rest]), saved), AckOk, taken)
  }

  function IdleDirListDataReq(g: FileState, d: Disk, a: Answers): Outcome {
    var (d1, status, entries) := CollectDirEntries(d, g.dirPath, g.dirStart, g.dirMax, a.findOk);
    Outcome(g, d1, [Datagram(g.client, DirData(g.dirRequestId, g.dirStart, status, entries))])
  }

  // ---- Path operations -----------------------------------------------------

  // dos_path_equal, on the names as C strings.
  predicate PathEqual(a: Name, b: Name)
    decreases |a|
  {
    if a == "" || b == "" then a == b
    else FoldChar(a[0]) == FoldChar(b[0]) && PathEqual(a[1..], b[1..])
  }

  datatype Copied = Copied(ok: bool, d: Disk, chunk: Chunk, bytes: Word32)

  // The copy loop from some round on. DOS answers no more than `rounds` calls;
  // a read beyond them fails.
  function CopyLoop(d: Disk, input: int, output: int, chunk: Chunk, bytes: Word32, rounds: seq<CopyRound>): Copied
    decreases |rounds|
  {
    if rounds == [] then Copied(false, d, chunk, bytes)
    else
      var (d1, n, data) := Read(d, input, FILE_TRANSFER_CHUNK_BYTES, rounds[0].read);
      if n < 0 then Copied(false, d1, chunk, bytes)
      else
        var chunk1 := Filled(chunk, data);
        if n == 0 then Copied(true, d1, chunk1, bytes)
        else
          var (d2, w) := Write(d1, output, chunk1[..n], rounds[0].written);
          if w != n then Copied(false, d2, chunk1, bytes)
          else CopyLoop(d2, input, output, chunk1, (bytes + n) % 0x1_0000_0000, rounds[1..])
  }

  function CopyFile(d: Disk, source: Name, target: Name, chunk: Chunk, a: Answers): Copied {
    var (d1, input) := OpenRead(d, source, a.handle);
    if input < 0 then Copied(false, d1, chunk, 0)
    else
      var (d2, output) := Create(d1, target, a.secondHandle);
      if output < 0 then Copied(false, Close(d2, input), chunk, 0)
      else
        var r := CopyLoop(d2, input, output, chunk, 0, a.rounds);
        r.(d := Close(Close(r.d, output), input))
  }

  function IdleMkdir(g: FileState, d: Disk, a: Answers): Outcome {
    var (d1, ok) := MakeDir(d, g.filename, a.done);
    Acked(g, d1, AckMkdir, OkIf(ok))
  }

  function IdleDelete(g: FileState, d: Disk, a: Answers): Outcome {
    var (d1, ok) := if g.pathOpFlags % 2 == FILE_PATH_OP_DIRECTORY
                    then RemoveDir(d, g.filename, a.done) else Unlink(d, g.filename, a.done);
    Acked(g, d1, AckDelete, OkIf(ok))
  }

  function IdleRename(g: FileState, d: Disk, a: Answers): Outcome {
    if PathEqual(g.filename, g.target) then Acked(g, d, AckRename, AckOk)
    else
      var (d1, ok) := RenameFile(d, g.filename, g.target, a.done);
      Acked(g, d1, AckRename, OkIf(ok))
  }

  function IdleCopy(g: FileState, d: Disk, a: Answers): Outcome {
    if PathEqual(g.filename, g.target) then Acked(g.(expected := 0), d, AckCopy, AckError)
    else
      var r := CopyFile(d, g.filename, g.target, g.chunk, a);
      Acked(g.(expected := r.bytes, chunk := r.chunk), r.d, AckCopy, OkIf(r.ok))
  }

  // A repeated DATA packet is answered with the offset saved when it came, and
  // that offset becomes the expected one again.
  function IdleAck(g: FileState, d: Disk): Outcome {
    Acked(g.(expected := g.ackOffset), d, g.ackCommand, g.ackStatus)
  }

  function Idle(g0: FileState, d: Disk, a: Answers): Outcome {
    var g := g0.(pending := OpNone);
    match g0.pending
    case OpNone => Outcome(g, d, [])
    case OpPutBegin => IdlePutBegin(g, d, a)
    case OpPutData => IdlePutData(g, d, a)
    case OpPutEnd => IdlePutEnd(g, d)
    case OpAck => IdleAck(g, d)
    case OpGetBegin => IdleGetBegin(g, d, a)
    case OpGetDataReq => IdleGetDataReq(g, d, a)
    case OpGetEnd => IdleGetEnd(g, d)
    case OpDirListDataReq => IdleDirListDataReq(g, d, a)
    case OpMkdir => IdleMkdir(g, d, a)
    case OpDelete => IdleDelete(g, d, a)
    case OpRename => IdleRename(g, d, a)
    case OpCopy => IdleCopy(g, d, a)
  }

  predicate ReplyId(r: Reply, transferId: Word32, requestId: Word32) {
    if r.DirData? then r.rid == requestId else r.id == transferId
  }

  // At most one answer, to the client whose request is run, with its id; the
  // ids themselves stay.
  lemma IdleAnswersItsClient(g: FileState, d: Disk, a: Answers)
    ensures var o := Idle(g, d, a);
            && o.g.transferId == g.transferId && o.g.dirRequestId == g.dirRequestId && o.g.pending == OpNone
            && |o.out| == (if g.pending == OpNone then 0 else 1)
            && forall i :: 0 <= i < |o.out| ==>
                 o.out[i].peer == g.client && ReplyId(o.out[i].reply, g.transferId, g.dirRequestId)
                 && (o.out[i].reply.DirData? <==> g.pending == OpDirListDataReq)
  {
    hide CopyFile, CollectDirEntries, FileSize, Read, Write, Create, OpenRead;
  }
}
