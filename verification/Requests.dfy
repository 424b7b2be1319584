/** What each request gets done: from the packet, through the pending operation
    and DOS, to the answer. */
module Requests {
  import opened Protocol
  import opened Dos
  import opened FileServerSpec
  import Copying

  // The packet is taken and its operation run.
  function Ran(g: FileState, d: Disk, f: Frame, a: Answers): Outcome {
    Idle(Handle(g, f), d, a)
  }

  predicate Replies(o: Outcome, f: Frame, reply: Reply) {
    o.out == [Datagram(f.peer, reply)]
  }

  // ---- Every request -----------------------------------------------------------

  // The reply that the pending operation will be answered with.
  predicate Due(g: FileState, m: Reply) {
    match g.pending
    case OpNone => false
    case OpPutBegin => m.Ack? && m.id == g.transferId && m.command == AckBegin
    case OpPutData => m.Ack? && m.id == g.transferId && m.command == AckData
    case OpPutEnd => m.Ack? && m.id == g.transferId && m.command == AckEnd
    case OpAck => m.Ack? && m.id == g.transferId && m.command == g.ackCommand
    case OpGetBegin => m.Ack? && m.id == g.transferId && m.command == AckBegin
    case OpGetDataReq => m.GetData? && m.id == g.transferId && m.offset == g.chunkOffset
    case OpGetEnd => m.Ack? && m.id == g.transferId && m.command == AckEnd
    case OpDirListDataReq => m.DirData? && m.rid == g.dirRequestId && m.start == g.dirStart
    case OpMkdir => m.Ack? && m.id == g.transferId && m.command == AckMkdir
    case OpDelete => m.Ack? && m.id == g.transferId && m.command == AckDelete
    case OpRename => m.Ack? && m.id == g.transferId && m.command == AckRename
    case OpCopy => m.Ack? && m.id == g.transferId && m.command == AckCopy
  }

  lemma IdleRepliesDue(g: FileState, d: Disk, a: Answers)
    ensures forall m <- Idle(g, d, a).out :: m.peer == g.client && Due(g, m.reply)
  {
    hide CopyFile, CollectDirEntries, FileSize, Read, Write, Create, OpenRead, PathEqual;
  }

  lemma RequestIsDue(g: FileState, f: Frame)
    requires g.pending == OpNone
    ensures var g1 := Handle(g, f);
            && (g1.pending != OpNone ==> g1.client == f.peer)
            && forall m :: Due(g1, m) ==> RepliesTo(f.body, m)
  {
  }

  // Whoever asks gets the answer to what was asked, once or not at all.
  lemma AnswersTheRequest(g: FileState, d: Disk, f: Frame, a: Answers)
    requires g.pending == OpNone
    ensures var o := Ran(g, d, f, a);
            && o.g.pending == OpNone && |o.out| <= 1
            && forall m <- o.out :: m.peer == f.peer && RepliesTo(f.body, m.reply)
  {
    RequestIsDue(g, f);
    IdleAnswersItsClient(Handle(g, f), d, a);
    IdleRepliesDue(Handle(g, f), d, a);
    hide Handle, Idle, Due, RepliesTo;
  }

  lemma BusyServerIgnores(g: FileState, f: Frame)
    requires g.pending != OpNone
    ensures Handle(g, f) == g
  {
  }

  // The transfer or listing that a request continues.
  predicate Continues(g: FileState, r: Request) {
    match r
    case PutData(id, _, _, _) => g.active && g.mode == ModePut && g.transferId == id
    case PutEnd(id, size) => g.active && g.mode == ModePut && g.transferId == id && g.size == size
    case GetDataReq(id, _, _) => g.active && g.mode == ModeGet && g.transferId == id
    case GetEnd(id) => g.active && g.mode == ModeGet && g.transferId == id
    case DirDataReq(rid, _, _) => g.active && g.mode == ModeDir && g.dirRequestId == rid
    case DirEnd(rid) => g.dirRequestId == rid
    case _ => true
  }

  // A request for another transfer does nothing and is not answered.
  lemma StrangersAreIgnored(g: FileState, d: Disk, f: Frame, a: Answers)
    requires g.pending == OpNone && !Continues(g, f.body)
    ensures Ran(g, d, f, a) == Outcome(g, d, [])
  {
  }

  // An operation on paths leaves the handle of a running transfer alone but takes
  // its id: the transfer goes on only under the new one.
  lemma PathRequestsTakeTheId(g: FileState, d: Disk, f: Frame, a: Answers)
    requires g.pending == OpNone && (f.body.Mkdir? || f.body.Delete? || f.body.Rename? || f.body.Copy?)
    ensures var o := Ran(g, d, f, a);
            && o.g.transferId == f.body.id && o.g.size == g.size
            && o.g.active == g.active && o.g.mode == g.mode && o.g.handle == g.handle
            && (!f.body.Copy? ==> o.g.expected == g.expected)
  {
    hide CopyFile, PathEqual, RenameFile, MakeDir, RemoveDir, Unlink, CollectDirEntries, FileSize;
  }

  // ---- Path operations -----------------------------------------------------------

  lemma MkdirMakes(g: FileState, d: Disk, f: Frame, a: Answers)
    requires g.pending == OpNone && f.body.Mkdir?
    ensures var o, name := Ran(g, d, f, a), Fold(f.body.name);
            var ok := a.done && name !in d.dirs;
            && Replies(o, f, Ack(f.body.id, AckMkdir, if ok then AckOk else AckError, g.expected))
            && o.d == d.(dirs := if ok then d.dirs + {name} else d.dirs)
  {
  }

  // With the directory flag a directory goes, without it a file.
  lemma DeleteDeletes(g: FileState, d: Disk, f: Frame, a: Answers)
    requires g.pending == OpNone && f.body.Delete?
    ensures var o, name, directory := Ran(g, d, f, a), Fold(f.body.name), f.body.flags % 2 == 1;
            var ok := a.done && (if directory then name in d.dirs else name in d.files);
            && Replies(o, f, Ack(f.body.id, AckDelete, if ok then AckOk else AckError, g.expected))
            && o.d == d.(files := if ok && !directory then d.files - {name} else d.files,
                         dirs := if ok && directory then d.dirs - {name} else d.dirs)
  {
  }

  lemma RenameRenames(g: FileState, d: Disk, f: Frame, a: Answers)
    requires g.pending == OpNone && f.body.Rename?
    ensures var o, source, target := Ran(g, d, f, a), Fold(f.body.name), Fold(f.body.target);
            var ok := source == target || (a.done && source in d.files && target !in d.files);
            && Replies(o, f, Ack(f.body.id, AckRename, if ok then AckOk else AckError, g.expected))
            && o.d.dirs == d.dirs && o.d.open == d.open
            && (source == target || !ok ==> o.d == d)
            && (source != target && ok ==>
                  && source !in o.d.files && target in o.d.files && o.d.files[target] == d.files[source]
                  && o.d.files - {source, target} == d.files - {source, target})
  {
    Copying.PathEqualIsFoldEqual(f.body.name, f.body.target);
    hide PathEqual;
  }

  // ---- COPY ------------------------------------------------------------------------

  // COPY reads the first name and writes the second.
  lemma CopyCopiesNames(g: FileState, d: Disk, f: Frame, a: Answers)
    requires g.pending == OpNone && f.body.Copy?
    requires Fold(f.body.name) in d.files ==> |d.files[Fold(f.body.name)]| <= MAX_FILE_BYTES
    ensures var o, source, target := Ran(g, d, f, a), Fold(f.body.name), Fold(f.body.target);
            && o.d.files - {target} == d.files - {target}
            && (source == target || source !in d.files ==> o.d.files == d.files)
            && |o.out| == 1 && o.out[0].peer == f.peer && o.out[0].reply.Ack?
            && o.out[0].reply.id == f.body.id && o.out[0].reply.command == AckCopy && o.out[0].reply.offset == o.g.expected
            && (o.out[0].reply.status == AckOk ==>
                  && source != target && source in d.files
                  && target in o.d.files && o.d.files[target] == d.files[source]
                  && o.out[0].reply.offset == |d.files[source]|)
  {
    Copying.CopyCopies(Handle(g, f), d, a);
    hide Idle;
  }

  // DOS carries `left` bytes through the rounds: every read delivers, every write
  // stores what was read, and the end of the file is reached.
  predicate Carried(rounds: seq<CopyRound>, left: nat)
    decreases |rounds|
  {
    && rounds != [] && rounds[0].read >= 0
    && var n := ReadLength(rounds[0].read, FILE_TRANSFER_CHUNK_BYTES, left);
       n == 0 || (rounds[0].written >= n && Carried(rounds[1..], left - n))
  }

  // The source exists, the two names are two files, and DOS has two handles.
  predicate Copyable(d: Disk, source: Name, target: Name, a: Answers) {
    && source in d.files && source != target
    && a.handle >= 0 && a.handle !in d.open
    && a.secondHandle >= 0 && a.secondHandle !in d.open && a.secondHandle != a.handle
  }

  lemma {:induction false} CopyLoopCarries(d: Disk, input: int, output: int, chunk: Chunk, bytes: Word32, rounds: seq<CopyRound>)
    requires Copying.Halfway(d, input, output, bytes)
    ensures CopyLoop(d, input, output, chunk, bytes, rounds).ok <==> Carried(rounds, |Content(d, input)| - bytes)
    decreases |rounds|
  {
    hide Filled, Write;
    if rounds != [] {
      var (d1, n, data) := Read(d, input, FILE_TRANSFER_CHUNK_BYTES, rounds[0].read);
      if n > 0 {
        Copying.RoundAppends(d, input, output, chunk, bytes, rounds[0]);
        WriteStores(d, d1, input, output, chunk, bytes, rounds[0]);
        var chunk1 := Filled(chunk, data);
        var (d2, w) := Write(d1, output, chunk1[..n], rounds[0].written);
        if w == n {
          CopyLoopCarries(d2, input, output, chunk1, bytes + n, rounds[1..]);
        }
      }
    }
  }

  // A write of the copy loop stores all exactly if DOS has room for all.
  lemma WriteStores(d: Disk, d1: Disk, input: int, output: int, chunk: Chunk, bytes: Word32, round: CopyRound)
    requires Copying.Halfway(d, input, output, bytes)
    requires d1 == Read(d, input, FILE_TRANSFER_CHUNK_BYTES, round.read).0
    ensures var n := Read(d, input, FILE_TRANSFER_CHUNK_BYTES, round.read).1;
            n > 0 ==>
              (Write(d1, output, Filled(chunk, Read(d, input, FILE_TRANSFER_CHUNK_BYTES, round.read).2)[..n], round.written).1 == n
               <==> round.written >= n)
  {
    hide Overwritten;
  }

  lemma CopyFileOk(d: Disk, source: Name, target: Name, chunk: Chunk, a: Answers)
    requires Fold(source) in d.files ==> |d.files[Fold(source)]| <= MAX_FILE_BYTES
    requires Fold(source) != Fold(target)
    ensures CopyFile(d, source, target, chunk, a).ok <==>
              Copyable(d, Fold(source), Fold(target), a) && Carried(a.rounds, |d.files[Fold(source)]|)
  {
    hide CopyLoop, Carried, Fold;
    var (d1, input) := OpenRead(d, source, a.handle);
    var (d2, output) := Create(d1, target, a.secondHandle);
    if input >= 0 && output >= 0 {
      CopyLoopCarries(d2, input, output, chunk, 0, a.rounds);
    }
  }

  // COPY answers OK exactly when it could.
  lemma CopyAnswersOk(g: FileState, d: Disk, f: Frame, a: Answers)
    requires g.pending == OpNone && f.body.Copy?
    requires Fold(f.body.name) in d.files ==> |d.files[Fold(f.body.name)]| <= MAX_FILE_BYTES
    ensures var o, source, target := Ran(g, d, f, a), Fold(f.body.name), Fold(f.body.target);
            && |o.out| == 1 && o.out[0].reply.Ack?
            && (o.out[0].reply.status == AckOk <==>
                  Copyable(d, source, target, a) && Carried(a.rounds, |d.files[source]|))
  {
    Copying.PathEqualIsFoldEqual(f.body.name, f.body.target);
    hide PathEqual, CopyFile, Carried;
    if Fold(f.body.name) != Fold(f.body.target) {
      CopyFileOk(d, f.body.name, f.body.target, g.chunk, a);
    }
  }

  // In particular where DOS does not fail: no read comes back empty before the
  // end, no write comes up short.
  lemma {:induction false} WillingDosCarries(rounds: seq<CopyRound>, left: nat)
    requires |rounds| > left
    requires forall r <- rounds :: r.read >= 0 && r.written >= FILE_TRANSFER_CHUNK_BYTES
    ensures Carried(rounds, left)
    decreases |rounds|
  {
    var n := ReadLength(rounds[0].read, FILE_TRANSFER_CHUNK_BYTES, left);
    assert rounds[0] in rounds;
    if n > 0 {
      WillingDosCarries(rounds[1..], left - n);
    }
  }

  // ---- Uploads ----------------------------------------------------------------------

  // The handles that are open once the transfer that was running is closed.
  function Remaining(g: FileState, d: Disk): set<int> {
    if g.active && g.handle >= 0 then d.open.Keys - {g.handle} else d.open.Keys
  }

  // BEGIN creates the file, empty, or says that it could not.
  lemma PutBeginRuns(g: FileState, d: Disk, f: Frame, a: Answers)
    requires g.pending == OpNone && f.body.PutBegin?
    ensures var o, name := Ran(g, d, f, a), Fold(f.body.name);
            var ok := a.handle >= 0 && a.handle !in Remaining(g, d);
            && Replies(o, f, Ack(f.body.id, AckBegin, if ok then AckOk else AckError, 0))
            && o.d.files == (if ok then d.files[name := []] else d.files)
            && o.d.open.Keys == (if ok then Remaining(g, d) + {a.handle} else Remaining(g, d))
            && o.g.expected == 0
            && (if ok then InTransfer(o.g, ModePut, f.body.id) && o.g.size == f.body.size && o.g.handle == a.handle && o.d.open[a.handle] == OpenFile(name, 0)
                else !o.g.active)
  {
  }

  // A chunk at another place than the next is acknowledged with the next place
  // and not written.
  lemma RepeatedDataRuns(g: FileState, d: Disk, f: Frame, a: Answers)
    requires g.pending == OpNone && f.body.PutData? && Continues(g, f.body) && f.body.offset != g.expected
    ensures var o := Ran(g, d, f, a);
            && Replies(o, f, Ack(f.body.id, AckData, AckOk, g.expected))
            && o.d == d && o.g.expected == g.expected && InTransfer(o.g, ModePut, f.body.id)
  {
  }

  // One that is too long, or shorter than it says, is refused.
  lemma BadDataRuns(g: FileState, d: Disk, f: Frame, a: Answers)
    requires g.pending == OpNone && f.body.PutData? && Continues(g, f.body) && f.body.offset == g.expected
    requires f.body.count > 512 || |f.body.body| < f.body.count
    ensures var o := Ran(g, d, f, a);
            && Replies(o, f, Ack(f.body.id, AckData, AckError, g.expected))
            && o.d == d && o.g.expected == g.expected && InTransfer(o.g, ModePut, f.body.id)
  {
  }

  // The next chunk is acknowledged OK exactly when DOS stores all of it behind
  // what is there, and otherwise has to be sent again.
  lemma NextDataRuns(g: FileState, d: Disk, f: Frame, a: Answers)
    requires g.pending == OpNone && f.body.PutData? && Continues(g, f.body) && f.body.offset == g.expected
    requires f.body.count <= 512 && |f.body.body| >= f.body.count
    requires IsOpen(d, g.handle) && d.open[g.handle].pos == |Content(d, g.handle)|
    ensures var o, count := Ran(g, d, f, a), f.body.count;
            var fits := |Content(d, g.handle)| + count <= MAX_FILE_BYTES;
            var stored := if a.written < 0 || !fits then 0 else Min(a.written, count);
            var ok := a.written >= 0 && fits && stored == count;
            && Replies(o, f, Ack(f.body.id, AckData, if ok then AckOk else AckError, o.g.expected))
            && o.g.expected == (if ok then (g.expected + count) % 0x1_0000_0000 else g.expected)
            && InTransfer(o.g, ModePut, f.body.id) && o.g.handle == g.handle && IsOpen(o.d, g.handle)
            && Content(o.d, g.handle) == Content(d, g.handle) + f.body.body[..stored]
            && o.d.files - {d.open[g.handle].name} == d.files - {d.open[g.handle].name}
  {
    var was, data := Content(d, g.handle), f.body.body[..f.body.count];
    assert Filled(g.chunk, data)[..f.body.count] == data;
    forall n | 0 <= n <= |data| ensures Overwritten(was, |was|, data[..n]) == was + data[..n] && data[..n] == f.body.body[..n] {
    }
  }

  // END closes the file, and is acknowledged OK exactly when all was written.
  lemma PutEndRuns(g: FileState, d: Disk, f: Frame, a: Answers)
    requires g.pending == OpNone && f.body.PutEnd? && Continues(g, f.body)
    ensures var o := Ran(g, d, f, a);
            && Replies(o, f, Ack(f.body.id, AckEnd, if g.expected == f.body.size then AckOk else AckError, g.expected))
            && !o.g.active && o.g.expected == g.expected && o.d.files == d.files && o.d.open.Keys == Remaining(g, d)
  {
  }

  // ---- Downloads --------------------------------------------------------------------

  // BEGIN opens the file and answers with its size, or says that it could not.
  lemma GetBeginRuns(g: FileState, d: Disk, f: Frame, a: Answers)
    requires g.pending == OpNone && f.body.GetBegin?
    requires Fold(f.body.name) in d.files ==> |d.files[Fold(f.body.name)]| <= MAX_FILE_BYTES
    ensures var o, name := Ran(g, d, f, a), Fold(f.body.name);
            var ok := name in d.files && a.handle >= 0 && a.handle !in Remaining(g, d) && a.findOk
                      && |d.files[name]| < 0xffff_ffff;
            && (ok ==> Replies(o, f, Ack(f.body.id, AckBegin, AckOk, |d.files[name]|)))
            && (!ok ==> Replies(o, f, Ack(f.body.id, AckBegin, AckError, 0)))
            && o.g.expected == 0 && o.d.files == d.files
            && o.d.open.Keys == (if ok then Remaining(g, d) + {a.handle} else Remaining(g, d))
            && (if ok then InTransfer(o.g, ModeGet, f.body.id) && o.g.size == |d.files[name]| && o.g.handle == a.handle
                           && o.d.open[a.handle].name == name
                else !o.g.active)
  {
    hide Fold, FileSize, CopyFile, CollectDirEntries;
    GetBeginIdles(Handle(g, f).(pending := OpNone), d, a);
    hide IdleGetBegin;
  }

  lemma GetBeginIdles(g: FileState, d: Disk, a: Answers)
    requires g.pending == OpNone && (Fold(g.filename) in d.files ==> |d.files[Fold(g.filename)]| <= MAX_FILE_BYTES)
    ensures var o, name := IdleGetBegin(g, d, a), Fold(g.filename);
            var ok := name in d.files && a.handle >= 0 && a.handle !in Remaining(g, d) && a.findOk
                      && |d.files[name]| < 0xffff_ffff;
            && o.out == [Datagram(g.client, if ok then Ack(g.transferId, AckBegin, AckOk, |d.files[name]|)
                                            else Ack(g.transferId, AckBegin, AckError, 0))]
            && o.g.expected == 0 && o.d.files == d.files
            && o.d.open.Keys == (if ok then Remaining(g, d) + {a.handle} else Remaining(g, d))
            && (if ok then InTransfer(o.g, ModeGet, g.transferId) && o.g.size == |d.files[name]| && o.g.handle == a.handle
                           && o.d.open[a.handle].name == name
                else !o.g.active)
  {
    hide Fold, FileSize;
    var d1 := if g.active then Close(d, g.handle) else d;
    assert d1.open.Keys == Remaining(g, d);
    SizeIsFound(OpenRead(d1, g.filename, a.handle).0, g.filename, a.findOk);
  }

  lemma SizeIsFound(d: Disk, name: Name, findOk: bool)
    ensures var (d', size) := FileSize(d, name, findOk);
            && d'.files == d.files && d'.open == d.open
            && (Fold(name) in d.files && |d.files[Fold(name)]| <= MAX_FILE_BYTES ==>
                  size == if findOk then |d.files[Fold(name)]| else 0xffff_ffff)
  {
    hide Fold;
  }

  predicate IsPiece(data: seq<Byte>, file: seq<Byte>, offset: nat, count: nat) {
    && |data| <= count
    && (data == [] <==> count == 0 || offset >= |file|)
    && (data != [] ==> offset + |data| <= |file| && data == file[offset..offset + |data|])
  }

  // DATA answers with bytes of the file from the place asked for; with none only
  // when none were asked for or the file ends there.
  lemma GetDataRuns(g: FileState, d: Disk, f: Frame, a: Answers)
    requires g.pending == OpNone && f.body.GetDataReq? && Continues(g, f.body) && IsOpen(d, g.handle)
    ensures var o, file := Ran(g, d, f, a), Content(d, g.handle);
            var ok := f.body.count <= 512 && f.body.offset <= g.size && a.seekOk && f.body.offset != 0xffff_ffff && a.read >= 0;
            && o.d.files == d.files && |o.out| == 1 && o.out[0].peer == f.peer && o.out[0].reply.GetData?
            && o.out[0].reply.id == f.body.id && o.out[0].reply.offset == f.body.offset
            && (o.out[0].reply.status == AckOk <==> ok)
            && o.g.expected == (if ok then (f.body.offset + |o.out[0].reply.data|) % 0x1_0000_0000 else g.expected)
            && (if ok then IsPiece(o.out[0].reply.data, file, f.body.offset, f.body.count) else o.out[0].reply.data == [])
            && InTransfer(o.g, ModeGet, f.body.id) && o.g.handle == g.handle && IsOpen(o.d, g.handle)
  {
    hide FileSize, CollectDirEntries, CopyFile;
    if f.body.count <= 512 && f.body.offset <= g.size && a.seekOk && f.body.offset != 0xffff_ffff && a.read >= 0 {
      var d1 := Seek(d, g.handle, f.body.offset, true).0;
      var (d2, n, data) := Read(d1, g.handle, f.body.count, a.read);
      assert Filled(g.chunk, data)[..n] == data;
    }
  }

  lemma GetEndRuns(g: FileState, d: Disk, f: Frame, a: Answers)
    requires g.pending == OpNone && f.body.GetEnd? && Continues(g, f.body)
    ensures var o := Ran(g, d, f, a);
            && Replies(o, f, Ack(f.body.id, AckEnd, AckOk, g.expected))
            && !o.g.active && o.g.expected == g.expected && o.d.files == d.files && o.d.open.Keys == Remaining(g, d)
  {
  }

  // ---- Listings ---------------------------------------------------------------------

  // BEGIN and END of a listing are silent: between them DATA requests under the
  // id are answered, outside they are not.
  lemma DirBeginRuns(g: FileState, d: Disk, f: Frame, a: Answers)
    requires g.pending == OpNone && f.body.DirBegin?
    ensures var o := Ran(g, d, f, a);
            && o.out == [] && o.d == d && o.g.dirPath == f.body.path
            && forall rid, start, max :: Continues(o.g, DirDataReq(rid, start, max)) <==> rid == f.body.rid
  {
  }

  lemma DirEndRuns(g: FileState, d: Disk, f: Frame, a: Answers)
    requires g.pending == OpNone && f.body.DirEnd? && Continues(g, f.body)
    ensures var o := Ran(g, d, f, a);
            && o.out == [] && o.d == d && o.g.dirRequestId == 0
            && forall rid, start, max :: !Continues(o.g, DirDataReq(rid, start, max))
  {
  }

  // A path that is too long for a pattern is answered with an error.
  lemma DirDataRuns(g: FileState, d: Disk, f: Frame, a: Answers)
    requires g.pending == OpNone && f.body.DirDataReq? && Continues(g, f.body)
    ensures var o := Ran(g, d, f, a);
            var (d', status, entries) := CollectDirEntries(d, g.dirPath, f.body.start, f.body.max, a.findOk);
            && Replies(o, f, DirData(f.body.rid, f.body.start, status, entries))
            && o.d.files == d.files && o.d.open == d.open && o.d.dirs == d.dirs
            && (DirPattern(g.dirPath) == None <==> status == AckError)
            && (status == AckError ==> entries == [] && o.d == d)
  {
    hide CollectDirEntries, CopyFile, FileSize, DirPattern;
    CollectKeepsDisk(d, g.dirPath, f.body.start, f.body.max, a.findOk);
  }

  lemma CollectKeepsDisk(d: Disk, path: Name, start: Word16, max: Word16, findOk: bool)
    ensures var (d', status, entries) := CollectDirEntries(d, path, start, max, findOk);
            && d'.files == d.files && d'.open == d.open && d'.dirs == d.dirs
            && (DirPattern(path) == None <==> status == AckError)
            && (status == AckError ==> entries == [] && d' == d)
  {
    hide DirPattern, Scan, Listing;
  }

  // ---- Search patterns -----------------------------------------------------------------

  // A directory is searched for everything in it.
  lemma DirectoryPattern(path: Name) returns (dir: Name)
    requires path != "" && |path| < RMTDOS_PATH_BYTES && !HasWildcard(path)
    ensures Translated(path) == (if path[|path| - 1] in "/\\" then dir + "\\" else dir)
    ensures DirPattern(path) == Some(dir + "\\*.*")
    ensures forall i :: 0 <= i < |dir| ==> dir[i] == if path[i] == '/' then '\\' else path[i]
  {
    var p, n := Translated(path), |path|;
    NoWildcard(path);
    hide HasWildcard;
    if path[n - 1] in "/\\" {
      dir := p[..n - 1];
      assert p == dir + "\\";
      assert p + "*.*" == dir + "\\*.*";
    } else {
      dir := p;
    }
  }

  lemma NoWildcard(path: Name)
    ensures HasWildcard(Translated(path)) <==> HasWildcard(path)
  {
    var p := Translated(path);
    if HasWildcard(path) {
      var i :| 0 <= i < |path| && (path[i] == '*' || path[i] == '?');
      assert p[i] == path[i];
    }
  }

  // A pattern is searched as it stands, and the empty path is the current
  // directory.
  lemma OtherPatterns(path: Name)
    ensures HasWildcard(path) && |path| < RMTDOS_PATH_BYTES ==> DirPattern(path) == Some(Translated(path))
    ensures DirPattern("") == DirPattern(".") == Some(".\\*.*")
  {
    NoWildcard(path);
    assert Translated(".") == ".";
    assert "." + "\\*.*" == ".\\*.*";
  }

  // Which way the slashes lean makes no difference.
  lemma SlashesAreAlike(path: Name, path': Name)
    requires |path| == |path'|
    requires forall i :: 0 <= i < |path| ==> path[i] == path'[i] || (path[i] in "/\\" && path'[i] in "/\\")
    ensures DirPattern(path) == DirPattern(path')
  {
    assert Translated(path) == Translated(path');
  }

  // ---- Names -----------------------------------------------------------------------------

  // The same letter in either case, either slash, or the same character.
  predicate Alike(x: char, y: char) {
    || x == y
    || (x in "/\\" && y in "/\\")
    || ('a' <= x <= 'z' && y as int == x as int - 32)
    || ('a' <= y <= 'z' && x as int == y as int - 32)
  }

  lemma NamesAreAlike(a: Name, b: Name)
    ensures Fold(a) == Fold(b) <==> |a| == |b| && forall i :: 0 <= i < |a| ==> Alike(a[i], b[i])
  {
    forall x: char, y: char ensures FoldChar(x) == FoldChar(y) <==> Alike(x, y) {
      CharsAreAlike(x, y);
    }
    hide FoldChar, Alike;
    if Fold(a) == Fold(b) {
      assert forall i :: 0 <= i < |a| ==> Fold(a)[i] == FoldChar(a[i]) && Fold(b)[i] == FoldChar(b[i]);
    }
  }

  lemma CharsAreAlike(x: char, y: char)
    ensures FoldChar(x) == FoldChar(y) <==> Alike(x, y)
  {
  }
}
