/** What the server keeps of DOS's resources: its handles and the disk transfer
    address of the program it interrupts. */
module Conservation {
  import opened Protocol
  import opened Dos
  import opened FileServerSpec

  // ---- The disk transfer address ---------------------------------------------

  predicate DtaKept(d: Disk, d': Disk) {
    d'.dta == d.dta && d'.found - {ServerDta} == d.found - {ServerDta}
  }

  lemma {:induction false} CopyLoopKeepsDta(d: Disk, input: int, output: int, chunk: Chunk, bytes: Word32, rounds: seq<CopyRound>)
    ensures var r := CopyLoop(d, input, output, chunk, bytes, rounds);
            r.d.dta == d.dta && r.d.found == d.found && r.d.open.Keys == d.open.Keys
    decreases |rounds|
  {
    hide Overwritten, ReadLength;
    if rounds != [] {
      var (d1, n, data) := Read(d, input, FILE_TRANSFER_CHUNK_BYTES, rounds[0].read);
      if n > 0 {
        var chunk1 := Filled(chunk, data);
        var d2 := Write(d1, output, chunk1[..n], rounds[0].written).0;
        CopyLoopKeepsDta(d2, input, output, chunk1, (bytes + n) % 0x1_0000_0000, rounds[1..]);
      }
    }
  }

  lemma CopyKeeps(d: Disk, source: Name, target: Name, chunk: Chunk, a: Answers)
    ensures var r := CopyFile(d, source, target, chunk, a);
            r.d.dta == d.dta && r.d.found == d.found && r.d.open.Keys == d.open.Keys
  {
    var (d1, input) := OpenRead(d, source, a.handle);
    var (d2, output) := Create(d1, target, a.secondHandle);
    if input >= 0 && output >= 0 {
      CopyLoopKeepsDta(d2, input, output, chunk, 0, a.rounds);
    }
  }

  lemma CollectKeepsDta(d: Disk, path: Name, start: Word16, max: nat, findOk: bool)
    ensures DtaKept(d, CollectDirEntries(d, path, start, max, findOk).0)
  {
    hide Scan, DirPattern, Listing;
  }

  lemma FileSizeKeepsDta(d: Disk, name: Name, findOk: bool)
    ensures DtaKept(d, FileSize(d, name, findOk).0)
  {
  }

  // Every idle call gives the program its own DTA back, and does not touch a
  // search the program has in progress.
  lemma IdleKeepsDta(g: FileState, d: Disk, a: Answers)
    ensures DtaKept(d, Idle(g, d, a).d)
  {
    hide CopyFile, CollectDirEntries, FileSize, Fold, Listing, Overwritten;
    match g.pending
    case OpCopy => CopyKeeps(d, g.filename, g.target, g.chunk, a);
    case OpDirListDataReq => CollectKeepsDta(d, g.dirPath, g.dirStart, g.dirMax, a.findOk);
    case OpGetBegin =>
      var d1 := if g.active then Close(d, g.handle) else d;
      FileSizeKeepsDta(OpenRead(d1, g.filename, a.handle).0, g.filename, a.findOk);
    case _ =>
  }

  // ---- Handles -----------------------------------------------------------------

  predicate Transferring(g: FileState) {
    g.active && (g.mode == ModePut || g.mode == ModeGet)
  }

  // The server holds the handle of its transfer and no other.
  predicate Conserved(g: FileState, d: Disk) {
    && d.open.Keys == (if Transferring(g) then {g.handle} else {})
    && (if Transferring(g) then g.handle >= 0 else g.handle == -1)
  }

  lemma SearchKeepsHandles(d: Disk, name: Name, path: Name, start: Word16, max: nat, findOk: bool)
    ensures CollectDirEntries(d, path, start, max, findOk).0.open == d.open
    ensures FileSize(d, name, findOk).0.open == d.open
  {
    hide Scan, DirPattern, Listing;
  }

  // All operations but four leave the handles as they are.
  lemma OtherOpsKeepHandles(g: FileState, d: Disk, a: Answers)
    requires g.pending !in {OpPutBegin, OpPutEnd, OpGetBegin, OpGetEnd}
    ensures var o := Idle(g, d, a);
            && o.d.open.Keys == d.open.Keys
            && o.g.active == g.active && o.g.mode == g.mode && o.g.handle == g.handle
  {
    hide CopyFile, CollectDirEntries, FileSize, Overwritten, Fold;
    match g.pending
    case OpCopy => CopyKeeps(d, g.filename, g.target, g.chunk, a);
    case OpDirListDataReq => SearchKeepsHandles(d, g.filename, g.dirPath, g.dirStart, g.dirMax, a.findOk);
    case _ =>
  }

  lemma GetBeginConserves(g: FileState, d: Disk, a: Answers)
    requires Conserved(g, d) && g.pending == OpGetBegin
    ensures Conserved(Idle(g, d, a).g, Idle(g, d, a).d)
  {
    hide FileSize, Fold;
    var d1 := if g.active then Close(d, g.handle) else d;
    assert d1.open.Keys == {};
    SearchKeepsHandles(OpenRead(d1, g.filename, a.handle).0, g.filename, g.dirPath, g.dirStart, g.dirMax, a.findOk);
  }

  lemma IdleConserves(g: FileState, d: Disk, a: Answers)
    requires Conserved(g, d)
    ensures Conserved(Idle(g, d, a).g, Idle(g, d, a).d)
  {
    hide IdleCopy, IdlePutData, IdleGetDataReq, IdleDirListDataReq, IdleGetBegin, Fold;
    if g.pending == OpGetBegin {
      GetBeginConserves(g, d, a);
    } else if g.pending !in {OpPutBegin, OpPutEnd, OpGetEnd} {
      OtherOpsKeepHandles(g, d, a);
    }
  }

  // A directory packet that takes the state of a running transfer away.
  predicate Hijacks(g: FileState, f: Frame) {
    && g.pending == OpNone && Transferring(g)
    && (f.body.DirBegin? || (f.body.DirEnd? && f.body.rid == g.dirRequestId))
  }

  lemma PacketTakesTransferOnlyAway(g: FileState, f: Frame)
    ensures Handle(g, f).handle == g.handle
    ensures Transferring(Handle(g, f)) <==> Transferring(g) && !Hijacks(g, f)
  {
  }

  lemma PacketConservesUnless(g: FileState, d: Disk, f: Frame)
    requires Conserved(g, d)
    ensures Conserved(Handle(g, f), d) <==> !Hijacks(g, f)
  {
    hide Handle;
    PacketTakesTransferOnlyAway(g, f);
  }

  // ---- Whole runs ----------------------------------------------------------------

  datatype Event = Packet(f: Frame) | IdleCall(a: Answers)

  function After(g: FileState, d: Disk, events: seq<Event>): (FileState, Disk)
    decreases |events|
  {
    if events == [] then (g, d)
    else
      var (g1, d1) := After(g, d, events[..|events| - 1]);
      match events[|events| - 1]
      case Packet(f) => (Handle(g1, f), d1)
      case IdleCall(a) => var o := Idle(g1, d1, a); (o.g, o.d)
  }

  predicate HijackedAt(g: FileState, d: Disk, events: seq<Event>, k: nat)
    requires k < |events|
  {
    events[k].Packet? && Hijacks(After(g, d, events[..k]).0, events[k].f)
  }

  predicate ConservedAt(g: FileState, d: Disk, events: seq<Event>, k: nat)
    requires k <= |events|
  {
    Conserved(After(g, d, events[..k]).0, After(g, d, events[..k]).1)
  }

  lemma PastSame(g: FileState, d: Disk, events: seq<Event>, n: nat)
    requires n <= |events|
    ensures forall k :: 0 <= k <= n ==> ConservedAt(g, d, events[..n], k) == ConservedAt(g, d, events, k)
    ensures forall k :: 0 <= k < n ==> HijackedAt(g, d, events[..n], k) == HijackedAt(g, d, events, k)
  {
    hide After, Conserved, Hijacks;
    assert forall k :: 0 <= k <= n ==> events[..n][..k] == events[..k];
  }

  // A run keeps to its handles at every point exactly when no directory packet
  // ever met a running transfer.
  lemma {:induction false} HandlesConserved(g: FileState, d: Disk, events: seq<Event>)
    requires Conserved(g, d)
    ensures (forall k :: 0 <= k <= |events| ==> ConservedAt(g, d, events, k))
            <==> (forall k :: 0 <= k < |events| ==> !HijackedAt(g, d, events, k))
    decreases |events|
  {
    hide After, Conserved, Hijacks;
    if events == [] {
      NothingHappened(g, d);
      assert events[..0] == events;
    } else {
      var n := |events| - 1;
      HandlesConserved(g, d, events[..n]);
      PastSame(g, d, events, n);
      LastEvent(g, d, events);
    }
  }

  lemma NothingHappened(g: FileState, d: Disk)
    ensures After(g, d, []) == (g, d)
  {
  }

  lemma LastEvent(g: FileState, d: Disk, events: seq<Event>)
    requires events != []
    ensures ConservedAt(g, d, events, |events| - 1) ==>
              (ConservedAt(g, d, events, |events|) <==> !HijackedAt(g, d, events, |events| - 1))
  {
    hide Idle, Handle, Conserved, Hijacks;
    var n := |events| - 1;
    assert events[..|events|] == events;
    var (g1, d1) := After(g, d, events[..n]);
    if Conserved(g1, d1) {
      match events[n]
      case Packet(f) => PacketConservesUnless(g1, d1, f);
      case IdleCall(a) => IdleConserves(g1, d1, a);
    }
  }

  // Without directory packets no run leaks or loses a handle, and between
  // steps an idle server has handle -1.
  lemma {:induction false} HandlesConservedWithoutListings(g: FileState, d: Disk, events: seq<Event>)
    requires Conserved(g, d)
    requires forall k :: 0 <= k < |events| && events[k].Packet? ==> !IsDirectoryRequest(events[k].f.body)
    ensures Conserved(After(g, d, events).0, After(g, d, events).1)
  {
    HandlesConserved(g, d, events);
    assert ConservedAt(g, d, events, |events|);
    assert events[..|events|] == events;
  }
}

/** COPY on a disk keyed by folded name. */
module Copying {
  import opened Protocol
  import opened Dos
  import opened FileServerSpec

  lemma {:induction false} PathEqualIsFoldEqual(a: Name, b: Name)
    ensures PathEqual(a, b) <==> Fold(a) == Fold(b)
    decreases |a|
  {
    if a != "" && b != "" {
      PathEqualIsFoldEqual(a[1..], b[1..]);
      assert Fold(a) == [FoldChar(a[0])] + Fold(a[1..]);
      assert Fold(b) == [FoldChar(b[0])] + Fold(b[1..]);
    } else {
      assert |Fold(a)| == |a| && |Fold(b)| == |b|;
    }
  }

  // The copy loop between two files: the target is the part of the source that
  // was read.
  predicate Halfway(d: Disk, input: int, output: int, bytes: Word32) {
    && IsOpen(d, input) && IsOpen(d, output)
    && d.open[input].name != d.open[output].name
    && |Content(d, input)| <= MAX_FILE_BYTES
    && d.open[input].pos == d.open[output].pos == |Content(d, output)| == bytes <= |Content(d, input)|
    && Content(d, output) == Content(d, input)[..bytes]
  }

  // A round of the loop that read something and wrote all of it.
  lemma RoundAppends(d: Disk, input: int, output: int, chunk: Chunk, bytes: Word32, round: CopyRound)
    requires Halfway(d, input, output, bytes)
    ensures var (d1, n, data) := Read(d, input, FILE_TRANSFER_CHUNK_BYTES, round.read);
            n > 0 ==>
              var (d2, w) := Write(d1, output, Filled(chunk, data)[..n], round.written);
              && d2.open.Keys == d.open.Keys
              && IsOpen(d2, input) && IsOpen(d2, output) && Content(d2, input) == Content(d, input)
              && d2.open[input].name == d.open[input].name && d2.open[output].name == d.open[output].name
              && d2.files - {d.open[output].name} == d.files - {d.open[output].name}
              && (w == n ==> bytes + n < 0x1_0000_0000 && Halfway(d2, input, output, bytes + n))
  {
    var (d1, n, data) := Read(d, input, FILE_TRANSFER_CHUNK_BYTES, round.read);
    if n > 0 {
      assert Filled(chunk, data)[..n] == data;
      var (d2, w) := Write(d1, output, data, round.written);
      if w == n {
        assert data[..n] == data;
        assert Content(d2, output) == Content(d, output) + data;
        assert Content(d, input)[..bytes] + data == Content(d, input)[..bytes + n];
      }
    }
  }

  lemma {:induction false} CopyLoopCopies(d: Disk, input: int, output: int, chunk: Chunk, bytes: Word32, rounds: seq<CopyRound>)
    requires Halfway(d, input, output, bytes)
    ensures var r := CopyLoop(d, input, output, chunk, bytes, rounds);
            && IsOpen(r.d, input) && IsOpen(r.d, output)
            && r.d.open[input].name == d.open[input].name && r.d.open[output].name == d.open[output].name
            && r.d.files - {d.open[output].name} == d.files - {d.open[output].name}
            && (r.ok ==> Content(r.d, output) == Content(d, input) && r.bytes == |Content(d, input)|)
    decreases |rounds|
  {
    hide Write, Filled;
    if rounds != [] {
      var (d1, n, data) := Read(d, input, FILE_TRANSFER_CHUNK_BYTES, rounds[0].read);
      if n > 0 {
        RoundAppends(d, input, output, chunk, bytes, rounds[0]);
        var chunk1 := Filled(chunk, data);
        var (d2, w) := Write(d1, output, chunk1[..n], rounds[0].written);
        if w == n {
          CopyLoopCopies(d2, input, output, chunk1, bytes + n, rounds[1..]);
        }
      } else if n == 0 {
        assert Content(d, input)[..bytes] == Content(d, input);
      }
    }
  }

  // COPY touches no file but its target, and none at all when the two names
  // are one file or there is no source; an OK COPY makes the target equal to the
  // source and acknowledges its length.
  lemma CopyCopies(g: FileState, d: Disk, a: Answers)
    requires g.pending == OpCopy
    requires Fold(g.filename) in d.files ==> |d.files[Fold(g.filename)]| <= MAX_FILE_BYTES
    ensures var o := Idle(g, d, a);
            && o.d.files - {Fold(g.target)} == d.files - {Fold(g.target)}
            && (Fold(g.target) == Fold(g.filename) || Fold(g.filename) !in d.files ==> o.d.files == d.files)
            && exists status: AckStatus, n: Word32 ::
                 && o.out == [Datagram(g.client, Ack(g.transferId, AckCopy, status, n))]
                 && (status == AckOk ==>
                       && Fold(g.target) != Fold(g.filename) && Fold(g.filename) in d.files
                       && Fold(g.target) in o.d.files && o.d.files[Fold(g.target)] == d.files[Fold(g.filename)]
                       && n == |d.files[Fold(g.filename)]|)
  {
    PathEqualIsFoldEqual(g.filename, g.target);
    var o := Idle(g, d, a);
    assert o.out == [Datagram(g.client, Ack(g.transferId, AckCopy, o.out[0].reply.status, o.out[0].reply.offset))];
    if !PathEqual(g.filename, g.target) {
      var (d1, input) := OpenRead(d, g.filename, a.handle);
      var (d2, output) := Create(d1, g.target, a.secondHandle);
      if input >= 0 && output >= 0 {
        assert Halfway(d2, input, output, 0);
        CopyLoopCopies(d2, input, output, g.chunk, 0, a.rounds);
      }
    }
  }
}
