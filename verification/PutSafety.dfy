/** Upload safety over whole runs. */
module PutSafety {
  import opened Protocol
  import opened Dos
  import opened FileServerSpec
  import opened System

  predicate IsPut(c: Config) {
    ValidConfig(c) && c.job.PutJob?
  }

  // The open file is the part of the upload the server has acknowledged, plus
  // what short writes left in it.
  predicate Prefix(c: Config, g: FileState, d: Disk, slack: nat)
    requires IsPut(c)
  {
    && g.handle >= 0 && IsOpen(d, g.handle)
    && d.open[g.handle].name == Fold(c.name)
    && g.size == |c.job.upload|
    && g.expected <= |c.job.upload|
    && |Content(d, g.handle)| == d.open[g.handle].pos == g.expected + slack
    && (slack == 0 ==> Content(d, g.handle) == c.job.upload[..g.expected])
  }

  predicate Uploading(c: Config, g: FileState, d: Disk, slack: nat)
    requires IsPut(c)
  {
    g.active && g.mode == ModePut && Prefix(c, g, d, slack)
  }

  predicate ChunkIsNext(c: Config, g: FileState)
    requires IsPut(c)
  {
    && g.chunkOffset == g.expected
    && 1 <= g.chunkCount <= FILE_TRANSFER_CHUNK_BYTES
    && g.expected + g.chunkCount <= |c.job.upload|
    && g.chunk[..g.chunkCount] == c.job.upload[g.expected..g.expected + g.chunkCount]
  }

  // What holds of the server as long as its transfer is this one. For a
  // pending acknowledgement the saved offset is still the current one, so
  // running it undoes nothing.
  predicate ServerInv(c: Config, g: FileState, d: Disk, slack: nat)
    requires IsPut(c)
  {
    g.transferId == c.id ==>
      match g.pending
      case OpNone => g.active && g.mode == ModePut ==> Prefix(c, g, d, slack)
      case OpPutBegin => g.filename == c.name && g.size == |c.job.upload|
      case OpPutData => Uploading(c, g, d, slack) && ChunkIsNext(c, g)
      case OpPutEnd => Uploading(c, g, d, slack)
      case OpAck => Uploading(c, g, d, slack) && g.ackOffset == g.expected && g.ackCommand == AckData
      case OpDirListDataReq => g.mode == ModeDir
      case _ => false
  }

  predicate OwnFrame(c: Config, f: Frame)
    requires IsPut(c)
  {
    match f.body
    case PutBegin(id, size, name) => id == c.id && size == |c.job.upload| && name == c.name
    case PutData(id, offset, count, body) =>
      id == c.id && 1 <= count == |body| <= FILE_TRANSFER_CHUNK_BYTES
      && offset + count <= |c.job.upload| && body == c.job.upload[offset..offset + count]
    case PutEnd(id, size) => id == c.id && size == |c.job.upload|
    case _ => false
  }

  // The server closed a complete file of the right length under the name.
  predicate Complete(c: Config, e: Closing)
    requires IsPut(c)
  {
    && e.id == c.id && e.name == Fold(c.name) && e.status == AckOk
    && |e.bytes| == |c.job.upload| + e.slack
    && (e.slack == 0 ==> e.bytes == c.job.upload)
  }

  predicate Confirmed(c: Config, closings: seq<Closing>)
    requires IsPut(c)
  {
    exists k :: 0 <= k < |closings| && Complete(c, closings[k])
  }

  predicate EndAck(c: Config, m: Datagram) {
    m.reply.Ack? && m.reply.id == c.id && m.reply.command == AckEnd && m.reply.status == AckOk
  }

  predicate Inv(c: Config, s: State)
    requires IsPut(c)
  {
    && PcFits(c, s.pc)
    && (forall f <- s.toServer :: OwnFrame(c, f))
    && ServerInv(c, s.server, s.disk, s.slack)
    && (forall m <- s.toClient :: EndAck(c, m) ==> Confirmed(c, s.closings))
    && (s.pc == Done(0) ==> Confirmed(c, s.closings))
  }

  // ---- Server steps ----------------------------------------------------------

  lemma PacketKeepsServer(c: Config, g: FileState, d: Disk, slack: nat, f: Frame)
    requires IsPut(c) && ServerInv(c, g, d, slack)
    requires OwnFrame(c, f) || !Ours(c, f.body)
    ensures ServerInv(c, Handle(g, f), d, slack)
  {
    if g.pending == OpNone && f.body.PutData? && InTransfer(g, ModePut, f.body.id)
       && f.body.offset == g.expected && f.body.id == c.id {
      var g' := Handle(g, f);
      assert g'.chunk[..g'.chunkCount] == f.body.body;
    }
  }

  lemma WriteAppends(c: Config, g: FileState, d: Disk, slack: nat, k: int)
    requires IsPut(c) && Prefix(c, g, d, slack) && ChunkIsNext(c, g)
    ensures var (d', n) := Write(d, g.handle, g.chunk[..g.chunkCount], k);
            n == g.chunkCount || n < g.chunkCount
    ensures var (d', n) := Write(d, g.handle, g.chunk[..g.chunkCount], k);
            n == g.chunkCount ==> g.expected + n <= MAX_FILE_BYTES && Prefix(c, g.(expected := g.expected + n), d', slack)
    ensures var (d', n) := Write(d, g.handle, g.chunk[..g.chunkCount], k);
            n < g.chunkCount ==> Prefix(c, g, d', if n < 0 then slack else slack + n)
  {
    var data := g.chunk[..g.chunkCount];
    var (d', n) := Write(d, g.handle, data, k);
    if n >= 0 {
      var was := Content(d, g.handle);
      assert data[..g.chunkCount] == data;
      assert Content(d', g.handle) == was + data[..n];
      if n == g.chunkCount && slack == 0 {
        assert c.job.upload[..g.expected] + data == c.job.upload[..g.expected + n];
      }
    }
  }

  lemma IdleKeepsServer(c: Config, g: FileState, d: Disk, slack: nat, a: Answers)
    requires IsPut(c) && ServerInv(c, g, d, slack)
    ensures var o := Idle(g, d, a); ServerInv(c, o.g, o.d, SlackAfter(g, d, a, slack))
  {
    hide CollectDirEntries, CopyFile, FileSize, Write;
    IdleAnswersItsClient(g, d, a);
    if g.transferId == c.id {
      match g.pending
      case OpPutData => WriteAppends(c, g, d, slack, a.written);
      case OpPutBegin =>
      case OpDirListDataReq =>
      case _ =>
    }
  }

  // An OK acknowledgement of END means the file was complete when it closed.
  lemma EndAckIsConfirmed(c: Config, g: FileState, d: Disk, slack: nat, a: Answers)
    requires IsPut(c) && ServerInv(c, g, d, slack)
    ensures forall m <- Sent(Idle(g, d, a).out) :: EndAck(c, m) ==>
              |ClosingOf(g, d, slack)| == 1 && Complete(c, ClosingOf(g, d, slack)[0])
  {
    forall m <- Sent(Idle(g, d, a).out) | EndAck(c, m)
      ensures |ClosingOf(g, d, slack)| == 1 && Complete(c, ClosingOf(g, d, slack)[0])
    {
      assert g.pending == OpPutEnd;
      assert c.job.upload[..g.expected] == c.job.upload;
    }
  }

  // ---- The whole system --------------------------------------------------------

  lemma ConfirmedStays(c: Config, closings: seq<Closing>, more: seq<Closing>)
    requires IsPut(c)
    requires Confirmed(c, closings) || (|more| == 1 && Complete(c, more[0]))
    ensures Confirmed(c, closings + more)
  {
    if Confirmed(c, closings) {
      var k :| 0 <= k < |closings| && Complete(c, closings[k]);
      assert (closings + more)[k] == closings[k];
    } else {
      assert (closings + more)[|closings|] == more[0];
    }
  }

  lemma IdleStepKeeps(c: Config, s: State, a: Answers)
    requires IsPut(c) && Inv(c, s)
    ensures Inv(c, IdleStep(s, a))
  {
    var t := IdleStep(s, a);
    IdleKeepsServer(c, s.server, s.disk, s.slack, a);
    EndAckIsConfirmed(c, s.server, s.disk, s.slack, a);
    forall m <- t.toClient | EndAck(c, m) ensures Confirmed(c, t.closings) {
      ConfirmedStays(c, s.closings, ClosingOf(s.server, s.disk, s.slack));
    }
    if s.pc == Done(0) {
      ConfirmedStays(c, s.closings, ClosingOf(s.server, s.disk, s.slack));
    }
  }

  lemma ClientStepKeeps(c: Config, s: State, act: Action)
    requires IsPut(c) && Inv(c, s)
    requires act.ClientSends? || act.ClientGets? || act.ClientTimesOut? || act.ClientAborts?
    ensures Inv(c, Step(c, s, act))
  {
    var t := Step(c, s, act);
    StepFits(c, s, act);
    if act.ClientSends? && s.pc.Sending? {
      assert OwnFrame(c, Frame(c.me, RequestOf(c, s.pc.phase)));
    }
  }

  lemma StepKeeps(c: Config, s: State, act: Action)
    requires IsPut(c) && Inv(c, s)
    ensures Inv(c, Step(c, s, act))
  {
    match act
    case ServerGets(f) =>
      if f in s.toServer || !Ours(c, f.body) {
        PacketKeepsServer(c, s.server, s.disk, s.slack, f);
      }
    case ServerIdles(a) => IdleStepKeeps(c, s, a);
    case DosElsewhere(d) =>
    case _ => ClientStepKeeps(c, s, act);
  }

  lemma {:induction false} RunKeeps(c: Config, s: State, acts: seq<Action>)
    requires IsPut(c) && Initial(c, s)
    ensures PcFits(c, s.pc) && Inv(c, Run(c, s, acts))
    decreases |acts|
  {
    InitialFits(c, s);
    if acts != [] {
      var n := |acts| - 1;
      RunKeeps(c, s, acts[..n]);
      StepKeeps(c, Run(c, s, acts[..n]), acts[n]);
    }
  }

  // In every reachable state in which this transfer is the server's and no
  // BEGIN waits, the open file is exactly the acknowledged part of the upload,
  // unless a write came up short.
  lemma PutPrefix(c: Config, s: State, acts: seq<Action>)
    requires IsPut(c) && Initial(c, s)
    ensures PcFits(c, s.pc)
    ensures var t := Run(c, s, acts);
            t.server.transferId == c.id && t.server.active && t.server.mode == ModePut
            && t.server.pending != OpPutBegin ==>
              && IsOpen(t.disk, t.server.handle)
              && t.disk.open[t.server.handle].name == Fold(c.name)
              && t.server.expected <= |c.job.upload|
              && (Content(t.disk, t.server.handle) == c.job.upload[..t.server.expected] <==> t.slack == 0)
  {
    RunKeeps(c, s, acts);
  }

  // If the client returns 0, some END step closed the named file with status
  // OK, and its bytes are the local file exactly when no write came up short.
  lemma PutSafe(c: Config, s: State, acts: seq<Action>)
    requires IsPut(c) && Initial(c, s)
    ensures PcFits(c, s.pc)
    ensures var t := Run(c, s, acts);
            t.pc == Done(0) ==>
              exists k :: 0 <= k < |t.closings|
                && t.closings[k].id == c.id && t.closings[k].name == Fold(c.name) && t.closings[k].status == AckOk
                && (t.closings[k].bytes == c.job.upload <==> t.closings[k].slack == 0)
  {
    RunKeeps(c, s, acts);
    var t := Run(c, s, acts);
    if t.pc == Done(0) {
      var k :| 0 <= k < |t.closings| && Complete(c, t.closings[k]);
    }
  }

  // ---- In terms of what DOS answers -----------------------------------------------

  // An idle call in which a write is stored whole or not at all.
  predicate WholeWrite(act: Action) {
    act.ServerIdles? ==> act.a.written <= 0 || act.a.written >= FILE_TRANSFER_CHUNK_BYTES
  }

  predicate NoSlackNow(c: Config, g: FileState, slack: nat) {
    g.transferId == c.id && g.pending != OpPutBegin && (g.pending in {OpPutData, OpPutEnd, OpAck} || (g.active && g.mode == ModePut)) ==>
      slack == 0
  }

  predicate NoSlack(c: Config, s: State) {
    && NoSlackNow(c, s.server, s.slack)
    && forall k :: 0 <= k < |s.closings| && s.closings[k].id == c.id ==> s.closings[k].slack == 0
  }

  lemma IdleAddsNoSlack(c: Config, g: FileState, d: Disk, slack: nat, a: Answers)
    requires NoSlackNow(c, g, slack) && WholeWrite(ServerIdles(a))
    ensures NoSlackNow(c, Idle(g, d, a).g, SlackAfter(g, d, a, slack))
    ensures forall k :: 0 <= k < |ClosingOf(g, d, slack)| && ClosingOf(g, d, slack)[k].id == c.id ==>
              ClosingOf(g, d, slack)[k].slack == 0
  {
    hide CollectDirEntries, CopyFile, FileSize, Overwritten, Read;
    IdleAnswersItsClient(g, d, a);
  }

  lemma StepAddsNoSlack(c: Config, s: State, act: Action)
    requires IsPut(c) && Inv(c, s) && NoSlack(c, s) && WholeWrite(act)
    ensures NoSlack(c, Step(c, s, act))
  {
    match act {
      case ServerIdles(a) =>
        hide Idle, SlackAfter, ClosingOf;
        IdleAddsNoSlack(c, s.server, s.disk, s.slack, a);
      case ServerGets(f) =>
      case _ =>
        hide Idle, Handle;
    }
  }

  lemma {:induction false} RunAddsNoSlack(c: Config, s: State, acts: seq<Action>)
    requires IsPut(c) && Initial(c, s) && forall act <- acts :: WholeWrite(act)
    ensures PcFits(c, s.pc) && NoSlack(c, Run(c, s, acts))
    decreases |acts|
  {
    hide NoSlackNow;
    InitialFits(c, s);
    if acts == [] {
      FreshHasNoSlack(c, s);
    } else {
      var n := |acts| - 1;
      RunAddsNoSlack(c, s, acts[..n]);
      RunKeeps(c, s, acts[..n]);
      hide Inv;
      StepAddsNoSlack(c, Run(c, s, acts[..n]), acts[n]);
    }
  }

  lemma FreshHasNoSlack(c: Config, s: State)
    requires IsPut(c) && Initial(c, s)
    ensures NoSlack(c, s)
  {
  }

  // If no write is stored in part, a return of 0 means that the server closed
  // the file as it was sent.
  lemma {:induction false} PutSafeWithWholeWrites(c: Config, s: State, acts: seq<Action>)
    requires IsPut(c) && Initial(c, s) && forall act <- acts :: WholeWrite(act)
    ensures PcFits(c, s.pc)
    ensures var t := Run(c, s, acts);
            t.pc == Done(0) ==>
              exists k :: 0 <= k < |t.closings|
                && t.closings[k].id == c.id && t.closings[k].name == Fold(c.name) && t.closings[k].status == AckOk
                && t.closings[k].bytes == c.job.upload
  {
    RunAddsNoSlack(c, s, acts);
    PutSafe(c, s, acts);
  }
}
