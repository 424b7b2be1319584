/** Download safety over whole runs: DOS may read short, the network may do
    anything, the remote file stays as it is. */
module GetSafety {
  import opened Protocol
  import opened Dos
  import opened FileServerSpec
  import opened System

  predicate IsGet(c: Config) {
    ValidConfig(c) && c.job.GetJob?
  }

  predicate Reading(c: Config, g: FileState, d: Disk)
    requires IsGet(c)
  {
    && g.handle in d.open && d.open[g.handle].name == Fold(c.name)
    && g.size == |c.job.remote|
  }

  predicate ServerInv(c: Config, g: FileState, d: Disk)
    requires IsGet(c)
  {
    g.transferId == c.id ==>
      match g.pending
      case OpNone => g.active ==> g.mode == ModeDir || (g.mode == ModeGet && Reading(c, g, d))
      case OpGetBegin => g.filename == c.name
      case OpGetDataReq => g.active && g.mode == ModeGet && Reading(c, g, d)
      case OpGetEnd => true
      case OpDirListDataReq => g.mode == ModeDir
      case _ => false
  }

  predicate OwnFrame(c: Config, f: Frame)
    requires IsGet(c)
  {
    match f.body
    case GetBegin(id, name) => id == c.id && name == c.name
    case GetDataReq(id, offset, count) => id == c.id
    case GetEnd(id) => id == c.id
    case _ => false
  }

  // Whatever the server sends for this transfer is a piece of the remote file
  // at the offset it names, or the file's size.
  predicate Truthful(c: Config, m: Datagram)
    requires IsGet(c)
  {
    match m.reply
    case GetData(id, offset, status, data) =>
      id == c.id && status == AckOk ==>
        offset + |data| <= |c.job.remote| && data == c.job.remote[offset..offset + |data|]
    case Ack(id, command, status, offset) =>
      id == c.id && command == AckBegin && status == AckOk ==> offset == |c.job.remote|
    case DirData(_, _, _, _) => true
  }

  // The local file is what has been fetched so far.
  predicate ClientInv(c: Config, s: State)
    requires IsGet(c)
  {
    if s.pc.Done? then s.pc.rc == 0 ==> s.local == c.job.remote
    else
      match PhaseOf(s.pc)
      case GetBeginning => s.local == []
      case GetFetching(offset, fileSize) =>
        fileSize == |c.job.remote| && offset < fileSize && s.local == c.job.remote[..offset]
      case GetEnding => s.local == c.job.remote
      case _ => false
  }

  predicate Inv(c: Config, s: State)
    requires IsGet(c)
  {
    && PcFits(c, s.pc)
    && (forall f <- s.toServer :: OwnFrame(c, f))
    && ServerInv(c, s.server, s.disk)
    && (forall m <- s.toClient :: Truthful(c, m))
    && ClientInv(c, s)
    && Steady(c, s.disk)
  }

  lemma PacketKeepsServer(c: Config, g: FileState, d: Disk, f: Frame)
    requires IsGet(c) && ServerInv(c, g, d)
    requires OwnFrame(c, f) || !Ours(c, f.body)
    ensures ServerInv(c, Handle(g, f), d)
  {
  }

  // The size search and the restored DTA leave files and handles alone.
  lemma FileSizeIsLength(c: Config, d: Disk, findOk: bool)
    requires IsGet(c) && Steady(c, d)
    ensures var (d', size) := FileSize(d, c.name, findOk);
            d'.files == d.files && d'.open == d.open && (size == 0xffff_ffff || size == |c.job.remote|)
  {
  }

  lemma BeginOpens(c: Config, g: FileState, d: Disk, a: Answers)
    requires IsGet(c) && Steady(c, d)
    requires g.pending == OpNone && g.filename == c.name && g.transferId == c.id
    ensures var o := IdleGetBegin(g, d, a);
            ServerInv(c, o.g, o.d) && forall m <- Sent(o.out) :: Truthful(c, m)
  {
    var d1 := if g.active then Close(d, g.handle) else d;
    var (d2, h) := OpenRead(d1, g.filename, a.handle);
    FileSizeIsLength(c, d2, a.findOk);
  }

  lemma ReadIsTruthful(c: Config, g: FileState, d: Disk, a: Answers)
    requires IsGet(c) && Steady(c, d) && Reading(c, g, d) && g.pending == OpNone && g.active && g.mode == ModeGet
    requires g.transferId == c.id
    ensures var o := IdleGetDataReq(g, d, a);
            ServerInv(c, o.g, o.d) && forall m <- Sent(o.out) :: Truthful(c, m)
  {
    if g.chunkCount <= FILE_TRANSFER_CHUNK_BYTES && g.chunkOffset <= g.size && a.seekOk {
      var d1 := Seek(d, g.handle, g.chunkOffset, true).0;
      var (d2, n, data) := Read(d1, g.handle, g.chunkCount, a.read);
      if n >= 0 {
        assert Filled(g.chunk, data)[..n] == data;
      }
    }
  }

  lemma IdleKeepsServer(c: Config, g: FileState, d: Disk, a: Answers)
    requires IsGet(c) && ServerInv(c, g, d) && Steady(c, d)
    ensures var o := Idle(g, d, a);
            ServerInv(c, o.g, o.d) && forall m <- Sent(o.out) :: Truthful(c, m)
  {
    hide CollectDirEntries, CopyFile, IdleGetBegin, IdleGetDataReq, IdlePutData, IdlePutBegin;
    IdleAnswersItsClient(g, d, a);
    if g.transferId == c.id {
      match g.pending
      case OpGetBegin => BeginOpens(c, g.(pending := OpNone), d, a);
      case OpGetDataReq => ReadIsTruthful(c, g.(pending := OpNone), d, a);
      case _ =>
    }
  }

  lemma ClientStepKeeps(c: Config, s: State, act: Action)
    requires IsGet(c) && Inv(c, s)
    requires act.ClientSends? || act.ClientTimesOut? || act.ClientAborts?
    ensures Inv(c, Step(c, s, act))
  {
    hide IdleStep, Handle, Receive, LeavesServerAlone, ServerInv, Steady;
    StepFits(c, s, act);
  }

  lemma ReceiveKeeps(c: Config, s: State, m: Datagram)
    requires IsGet(c) && Inv(c, s) && s.pc.Waiting? && m in s.toClient
    ensures Inv(c, Receive(c, s, m))
  {
    hide Steady, ServerInv, OwnFrame;
    ReceiveFits(c, s, m);
    assert Truthful(c, m);
    if s.pc.phase.GetFetching? && m.reply.GetData? && Judge(c, s.pc.phase, m).Progress? {
      var offset, data := s.pc.phase.offset, m.reply.data;
      assert c.job.remote[..offset] + c.job.remote[offset..offset + |data|] == c.job.remote[..offset + |data|];
      assert c.job.remote[..|c.job.remote|] == c.job.remote;
    }
  }

  lemma StepKeeps(c: Config, s: State, act: Action)
    requires IsGet(c) && Inv(c, s)
    ensures Inv(c, SteadyStep(c, s, act))
  {
    hide Idle, Handle, Receive, Truthful;
    var t := Step(c, s, act);
    match act
    case ServerGets(f) =>
      if f in s.toServer || !Ours(c, f.body) {
        PacketKeepsServer(c, s.server, s.disk, f);
      }
    case ServerIdles(a) => IdleKeepsServer(c, s.server, s.disk, a);
    case DosElsewhere(d) =>
    case ClientGets(m) =>
      if s.pc.Waiting? && m in s.toClient {
        ReceiveKeeps(c, s, m);
      }
    case _ => ClientStepKeeps(c, s, act);
  }

  lemma {:induction false} RunKeeps(c: Config, s: State, acts: seq<Action>)
    requires IsGet(c) && Initial(c, s)
    ensures PcFits(c, s.pc) && Inv(c, Run(c, s, acts))
    decreases |acts|
  {
    InitialFits(c, s);
    if acts != [] {
      var n := |acts| - 1;
      RunKeeps(c, s, acts[..n]);
      StepKeeps(c, Run(c, s, acts[..n]), acts[n]);
    }
  }

  // If the client returns 0, the local file is the remote file; at every point
  // of the fetch loop it is the remote file up to the loop's offset.
  lemma GetSafe(c: Config, s: State, acts: seq<Action>)
    requires IsGet(c) && Initial(c, s)
    ensures PcFits(c, s.pc)
    ensures Run(c, s, acts).pc == Done(0) ==> Run(c, s, acts).local == c.job.remote
    ensures var t := Run(c, s, acts);
            !t.pc.Done? && t.pc.phase.GetFetching? ==>
              t.pc.phase.offset < |c.job.remote| && t.local == c.job.remote[..t.pc.phase.offset]
  {
    RunKeeps(c, s, acts);
  }

  // One step adds to the local file what it adds to the offset, and each new
  // round of the fetch loop starts further on.
  lemma StepGrows(c: Config, s: State, act: Action)
    requires IsGet(c) && PcFits(c, s.pc)
    ensures var t := SteadyStep(c, s, act);
            && s.local <= t.local
            && (!s.pc.Done? && !t.pc.Done? && s.pc.phase.GetFetching? && t.pc.phase.GetFetching? ==>
                  && t.pc.phase.offset - s.pc.phase.offset == |t.local| - |s.local|
                  && (s.pc.Waiting? && t.pc.Sending? && t.pc.attempt == 0 ==> t.pc.phase.offset > s.pc.phase.offset))
  {
    hide Idle, Handle;
  }

  // As a run goes on the local file only grows at its end.
  lemma {:induction false} GetGrows(c: Config, s: State, acts: seq<Action>, more: seq<Action>)
    requires IsGet(c) && Initial(c, s)
    ensures PcFits(c, s.pc)
    ensures Run(c, s, acts).local <= Run(c, s, acts + more).local
    decreases |more|
  {
    InitialFits(c, s);
    if more == [] {
      assert acts + more == acts;
    } else {
      var n := |more| - 1;
      GetGrows(c, s, acts, more[..n]);
      assert acts + more == (acts + more[..n]) + [more[n]];
      RunExtends(c, s, acts + more[..n], more[n]);
      StepGrows(c, Run(c, s, acts + more[..n]), more[n]);
    }
  }
}
