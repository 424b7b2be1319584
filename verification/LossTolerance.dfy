/** When an upload or a download succeeds on a channel that loses messages but
    delivers none late, with DOS calls succeeding. */
module LossTolerance {
  import opened Protocol
  import opened Dos
  import opened FileServerSpec
  import opened System
  import opened Channel
  import opened Script
  import PutSafety
  import GetSafety

  predicate IsFile(c: Config) {
    ValidConfig(c) && !c.job.DirJob?
  }

  function Length(c: Config): nat
    requires IsFile(c)
  {
    if c.job.PutJob? then |c.job.upload| else |c.job.remote|
  }

  function Chunks(c: Config): nat
    requires IsFile(c)
  {
    Pieces(Length(c), FILE_TRANSFER_CHUNK_BYTES)
  }

  // ---- The condition -------------------------------------------------------

  // The server takes the size of the longest possible file for a failure.
  predicate Servable(c: Config)
    requires IsFile(c)
  {
    c.job.GetJob? ==> |c.job.remote| < 0xffff_ffff
  }

  // Every BEGIN and DATA exchange has an attempt that is delivered both ways,
  // and the first END to arrive has its acknowledgement delivered.
  predicate EnoughDelivered(c: Config, fates: Fates)
    requires IsFile(c)
  {
    && (forall e :: 0 <= e <= Chunks(c) ==> DeliveredFrom(fates, e, 0, 10))
    && FirstArrivalDelivered(fates, 1 + Chunks(c), 0)
  }

  predicate FirstArrivalDelivered(fates: Fates, e: nat, a: nat) {
    exists b :: a <= b < 10 && fates(e, b) == Delivered && forall b' :: a <= b' < b ==> fates(e, b') == RequestLost
  }

  // ---- What the server and client agree on between attempts ------------------

  predicate Beginning(p: Phase) {
    p.PutBeginning? || p.GetBeginning?
  }

  predicate Ending(p: Phase) {
    p.PutEnding? || p.GetEnding?
  }

  // The handle DOS gives out next is free, or the one BEGIN closes first.
  predicate HandleReady(g: FileState, d: Disk, h: nat) {
    h in d.open ==> g.active && g.handle == h
  }

  predicate Storing(c: Config, g: FileState, d: Disk)
    requires IsFile(c) && c.job.PutJob?
  {
    InTransfer(g, ModePut, c.id) && PutSafety.Prefix(c, g, d, 0)
  }

  predicate Fetching(c: Config, g: FileState, d: Disk)
    requires IsFile(c) && c.job.GetJob?
  {
    InTransfer(g, ModeGet, c.id) && GetSafety.Reading(c, g, d) && g.handle >= 0
  }

  predicate PhaseAgreed(c: Config, p: Phase, g: FileState, d: Disk)
    requires IsFile(c) && PhaseFits(c, p)
  {
    match p
    case PutSending(offset, n) =>
      && offset % FILE_TRANSFER_CHUNK_BYTES == 0
      && n == Min(FILE_TRANSFER_CHUNK_BYTES, |c.job.upload| - offset)
      && Storing(c, g, d)
      && (g.expected == offset || g.expected == offset + n)
    case PutEnding => g.active ==> Storing(c, g, d) && g.expected == |c.job.upload|
    case GetFetching(offset, fileSize) =>
      && offset % FILE_TRANSFER_CHUNK_BYTES == 0 && fileSize == |c.job.remote|
      && Servable(c) && Fetching(c, g, d)
    case GetEnding => Servable(c) && (g.active ==> Fetching(c, g, d))
    case _ => true
  }

  predicate Agreed(c: Config, s: State, h: nat)
    requires IsFile(c) && PcFits(c, s.pc) && s.pc.Sending?
  {
    && s.server.pending == OpNone
    && s.pc.attempt < FILE_RETRIES
    && HandleReady(s.server, s.disk, h)
    && Steady(c, s.disk)
    && PhaseAgreed(c, s.pc.phase, s.server, s.disk)
  }

  predicate Advances(c: Config, s: State, fate: Fate)
    requires IsFile(c) && PcFits(c, s.pc) && s.pc.Sending?
  {
    fate == Delivered && Servable(c) && (Ending(s.pc.phase) ==> s.server.active)
  }

  function Advanced(c: Config, p: Phase): Pc
    requires IsFile(c) && PhaseFits(c, p)
  {
    match p
    case PutBeginning => Sending(NextPut(c.job.upload, 0), 0)
    case PutSending(offset, n) => Sending(NextPut(c.job.upload, offset + n), 0)
    case GetBeginning => Sending(NextGet(0, |c.job.remote|), 0)
    case GetFetching(offset, fileSize) =>
      Sending(NextGet(offset + Min(FILE_TRANSFER_CHUNK_BYTES, fileSize - offset), fileSize), 0)
    case _ => Done(0)
  }

  // What an attempt with this fate leads to.
  predicate Leads(c: Config, s: State, fate: Fate, h: nat, t: State)
    requires IsFile(c) && PcFits(c, s.pc) && s.pc.Sending? && PcFits(c, t.pc)
  {
    && t.pc == (if Advances(c, s, fate) then Advanced(c, s.pc.phase) else Retried(c, s.pc.phase, s.pc.attempt))
    && (t.pc.Sending? ==> Agreed(c, t, h))
    && (Ending(s.pc.phase) ==> (t.server.active <==> s.server.active && fate == RequestLost))
    && (t.pc.Sending? && Ending(t.pc.phase) && !Ending(s.pc.phase) ==> t.server.active)
  }

  // ---- Uploading -----------------------------------------------------------------

  // A new file is open for this transfer, empty.
  lemma PutBeginArrives(c: Config, g: FileState, d: Disk, h: nat)
    requires IsFile(c) && c.job.PutJob? && g.pending == OpNone && HandleReady(g, d, h)
    ensures var g1 := Handle(g, Frame(c.me, PutBegin(c.id, |c.job.upload|, c.name)));
            var o := Idle(g1, d, Willing(h));
            && o.g.pending == OpNone && HandleReady(o.g, o.d, h) && Storing(c, o.g, o.d) && o.g.expected == 0
            && o.out == [Datagram(c.me, Ack(c.id, AckBegin, AckOk, 0))]
  {
  }

  // Whether the chunk is new or repeated, the answer is the offset behind it.
  lemma ChunkArrives(c: Config, g: FileState, d: Disk, offset: nat, n: nat, h: nat)
    requires IsFile(c) && c.job.PutJob? && g.pending == OpNone && Storing(c, g, d) && HandleReady(g, d, h)
    requires 1 <= n <= FILE_TRANSFER_CHUNK_BYTES && offset + n <= |c.job.upload|
    requires g.expected == offset || g.expected == offset + n
    ensures var g1 := Handle(g, Frame(c.me, PutData(c.id, offset, n, c.job.upload[offset..offset + n])));
            var o := Idle(g1, d, Willing(h));
            && o.g.pending == OpNone && HandleReady(o.g, o.d, h) && Storing(c, o.g, o.d) && o.g.expected == offset + n
            && o.out == [Datagram(c.me, Ack(c.id, AckData, AckOk, offset + n))]
  {
    hide Overwritten, CopyFile, CollectDirEntries, FileSize;
    var g1 := Handle(g, Frame(c.me, PutData(c.id, offset, n, c.job.upload[offset..offset + n])));
    if g.expected == offset {
      assert g1.chunk[..n] == c.job.upload[offset..offset + n];
      PutSafety.WriteAppends(c, g1.(pending := OpNone), d, 0, FILE_TRANSFER_CHUNK_BYTES);
    }
  }

  lemma PutEndArrives(c: Config, g: FileState, d: Disk, h: nat)
    requires IsFile(c) && c.job.PutJob? && g.pending == OpNone && HandleReady(g, d, h)
    requires g.active ==> Storing(c, g, d) && g.expected == |c.job.upload|
    ensures var g1 := Handle(g, Frame(c.me, PutEnd(c.id, |c.job.upload|)));
            var o := Idle(g1, d, Willing(h));
            && o.g.pending == OpNone && !o.g.active && HandleReady(o.g, o.d, h)
            && o.out == (if g.active then [Datagram(c.me, Ack(c.id, AckEnd, AckOk, |c.job.upload|))] else [])
  {
  }

  lemma PutAttemptLeads(c: Config, s: State, fate: Fate, h: nat)
    requires IsFile(c) && c.job.PutJob? && PcFits(c, s.pc) && s.pc.Sending? && Agreed(c, s, h)
    ensures Leads(c, s, fate, h, Attempt(c, s, fate, Willing(h)))
  {
    hide Idle, Handle, Attempt, PutSafety.Prefix, HandleReady;
    AttemptServes(c, s, fate, Willing(h));
    AttemptMoves(c, s, fate, Willing(h));
    match s.pc.phase {
      case PutBeginning => PutBeginArrives(c, s.server, s.disk, h);
      case PutSending(offset, n) => ChunkArrives(c, s.server, s.disk, offset, n, h);
      case PutEnding => PutEndArrives(c, s.server, s.disk, h);
    }
  }

  // ---- Downloading ---------------------------------------------------------------

  lemma SizeIsFound(c: Config, d: Disk)
    requires IsFile(c) && c.job.GetJob? && Steady(c, d)
    ensures var (d', size) := FileSize(d, c.name, true);
            d'.files == d.files && d'.open == d.open && size == |c.job.remote|
  {
  }

  // The file is open for reading and its size acknowledged, unless that is the
  // one size that stands for a failure.
  lemma GetBeginArrives(c: Config, g: FileState, d: Disk, h: nat)
    requires IsFile(c) && c.job.GetJob? && g.pending == OpNone && HandleReady(g, d, h) && Steady(c, d)
    ensures var g1 := Handle(g, Frame(c.me, GetBegin(c.id, c.name)));
            var o := Idle(g1, d, Willing(h));
            && o.g.pending == OpNone && HandleReady(o.g, o.d, h) && o.d.files == d.files
            && (Servable(c) ==> Fetching(c, o.g, o.d) && o.out == [Datagram(c.me, Ack(c.id, AckBegin, AckOk, |c.job.remote|))])
            && (!Servable(c) ==> o.out == [Datagram(c.me, Ack(c.id, AckBegin, AckError, 0))])
  {
    hide CopyFile, CollectDirEntries, FileSize;
    var d1 := if g.active then Close(d, g.handle) else d;
    SizeIsFound(c, OpenRead(d1, c.name, h).0);
  }

  // A piece can be asked for any number of times.
  lemma FetchArrives(c: Config, g: FileState, d: Disk, offset: nat, h: nat)
    requires IsFile(c) && c.job.GetJob? && g.pending == OpNone && HandleReady(g, d, h) && Steady(c, d)
    requires Fetching(c, g, d) && offset < |c.job.remote|
    ensures var n := Min(FILE_TRANSFER_CHUNK_BYTES, |c.job.remote| - offset);
            var g1 := Handle(g, Frame(c.me, GetDataReq(c.id, offset, n)));
            var o := Idle(g1, d, Willing(h));
            && o.g.pending == OpNone && HandleReady(o.g, o.d, h) && o.d.files == d.files && Fetching(c, o.g, o.d)
            && o.out == [Datagram(c.me, GetData(c.id, offset, AckOk, c.job.remote[offset..offset + n]))]
  {
    hide CopyFile, CollectDirEntries, FileSize;
    var n := Min(FILE_TRANSFER_CHUNK_BYTES, |c.job.remote| - offset);
    var d1 := Seek(d, g.handle, offset, true).0;
    var data := Read(d1, g.handle, n, FILE_TRANSFER_CHUNK_BYTES).2;
    assert Filled(g.chunk, data)[..n] == data;
  }

  lemma GetEndArrives(c: Config, g: FileState, d: Disk, h: nat)
    requires IsFile(c) && c.job.GetJob? && g.pending == OpNone && HandleReady(g, d, h)
    requires g.active ==> Fetching(c, g, d)
    ensures var g1 := Handle(g, Frame(c.me, GetEnd(c.id)));
            var o := Idle(g1, d, Willing(h));
            && o.g.pending == OpNone && !o.g.active && HandleReady(o.g, o.d, h) && o.d.files == d.files
            && (if g.active then o.out == [Datagram(c.me, Ack(c.id, AckEnd, AckOk, g.expected))] else o.out == [])
  {
    hide CopyFile, CollectDirEntries, FileSize;
  }

  lemma GetBeginLeads(c: Config, s: State, fate: Fate, h: nat)
    requires IsFile(c) && PcFits(c, s.pc) && s.pc.Sending? && Agreed(c, s, h) && s.pc.phase == GetBeginning
    ensures Leads(c, s, fate, h, Attempt(c, s, fate, Willing(h)))
  {
    hide Idle, Handle, Attempt, GetSafety.Reading, HandleReady;
    GetBeginArrives(c, s.server, s.disk, h);
    AttemptServes(c, s, fate, Willing(h));
    AttemptMoves(c, s, fate, Willing(h));
  }

  lemma GetFetchLeads(c: Config, s: State, fate: Fate, h: nat)
    requires IsFile(c) && PcFits(c, s.pc) && s.pc.Sending? && Agreed(c, s, h) && s.pc.phase.GetFetching?
    ensures Leads(c, s, fate, h, Attempt(c, s, fate, Willing(h)))
  {
    hide Idle, Handle, Attempt, GetSafety.Reading, HandleReady;
    FetchArrives(c, s.server, s.disk, s.pc.phase.offset, h);
    AttemptServes(c, s, fate, Willing(h));
    AttemptMoves(c, s, fate, Willing(h));
  }

  lemma GetEndLeads(c: Config, s: State, fate: Fate, h: nat)
    requires IsFile(c) && PcFits(c, s.pc) && s.pc.Sending? && Agreed(c, s, h) && s.pc.phase == GetEnding
    ensures Leads(c, s, fate, h, Attempt(c, s, fate, Willing(h)))
  {
    hide Idle, Handle, Attempt, GetSafety.Reading, HandleReady;
    GetEndArrives(c, s.server, s.disk, h);
    AttemptServes(c, s, fate, Willing(h));
    AttemptMoves(c, s, fate, Willing(h));
  }

  // ---- The whole transfer --------------------------------------------------------

  lemma AttemptLeads(c: Config, s: State, fate: Fate, h: nat)
    requires IsFile(c) && PcFits(c, s.pc) && s.pc.Sending? && Agreed(c, s, h)
    ensures Leads(c, s, fate, h, Attempt(c, s, fate, Willing(h)))
  {
    hide Attempt, Leads, Agreed;
    match s.pc.phase {
      case GetBeginning => GetBeginLeads(c, s, fate, h);
      case GetFetching(_, _) => GetFetchLeads(c, s, fate, h);
      case GetEnding => GetEndLeads(c, s, fate, h);
      case _ => PutAttemptLeads(c, s, fate, h);
    }
  }

  lemma NextExchange(c: Config, p: Phase)
    requires IsFile(c) && PhaseFits(c, p) && !Ending(p)
    requires p.PutSending? ==>
               p.offset % FILE_TRANSFER_CHUNK_BYTES == 0
               && p.n == Min(FILE_TRANSFER_CHUNK_BYTES, |c.job.upload| - p.offset)
    requires p.GetFetching? ==> p.offset % FILE_TRANSFER_CHUNK_BYTES == 0 && p.fileSize == |c.job.remote|
    ensures Exchange(c, p) <= Chunks(c)
    ensures Advanced(c, p).Sending? && PhaseFits(c, Advanced(c, p).phase)
    ensures Exchange(c, Advanced(c, p).phase) == Exchange(c, p) + 1
  {
  }

  // The condition seen from the middle of the transfer.
  predicate RestDelivered(c: Config, s: State, fates: Fates)
    requires IsFile(c) && PcFits(c, s.pc) && s.pc.Sending?
  {
    var e, a := Exchange(c, s.pc.phase), s.pc.attempt;
    if Ending(s.pc.phase) then s.server.active && FirstArrivalDelivered(fates, e, a)
    else
      && Servable(c)
      && DeliveredFrom(fates, e, a, FILE_RETRIES)
      && (forall e' :: e < e' <= Chunks(c) ==> DeliveredFrom(fates, e', 0, FILE_RETRIES))
      && FirstArrivalDelivered(fates, 1 + Chunks(c), 0)
  }

  lemma RestSteps(c: Config, s: State, fates: Fates, h: nat)
    requires IsFile(c) && PcFits(c, s.pc) && s.pc.Sending? && Agreed(c, s, h)
    ensures var t := Attempt(c, s, fates(Exchange(c, s.pc.phase), s.pc.attempt), Willing(h));
            && (t.pc.Sending? ==> (RestDelivered(c, s, fates) <==> RestDelivered(c, t, fates)))
            && (t.pc.Done? ==> (t.pc.rc == 0 <==> RestDelivered(c, s, fates)))
            && !t.pc.Waiting?
  {
    hide Attempt, Storing, Fetching, FirstArrivalDelivered;
    var e, a := Exchange(c, s.pc.phase), s.pc.attempt;
    var fate := fates(e, a);
    AttemptLeads(c, s, fate, h);
    if Ending(s.pc.phase) {
      EndFate(fates, e, a);
    } else {
      NextExchange(c, s.pc.phase);
      if fate == Delivered {
        assert DeliveredFrom(fates, e, a, FILE_RETRIES);
      } else {
        assert DeliveredFrom(fates, e, a, FILE_RETRIES) <==> DeliveredFrom(fates, e, a + 1, FILE_RETRIES);
      }
    }
  }

  lemma EndFate(fates: Fates, e: nat, a: nat)
    requires a < FILE_RETRIES
    ensures FirstArrivalDelivered(fates, e, a) <==>
              fates(e, a) == Delivered || (fates(e, a) == RequestLost && FirstArrivalDelivered(fates, e, a + 1))
    ensures !FirstArrivalDelivered(fates, e, FILE_RETRIES)
  {
    if FirstArrivalDelivered(fates, e, a) {
      var b :| a <= b < FILE_RETRIES && fates(e, b) == Delivered && forall b' :: a <= b' < b ==> fates(e, b') == RequestLost;
      if b > a {
        assert FirstArrivalDelivered(fates, e, a + 1);
      }
    }
    if fates(e, a) == RequestLost && FirstArrivalDelivered(fates, e, a + 1) {
      var b :| a + 1 <= b < FILE_RETRIES && fates(e, b) == Delivered && forall b' :: a + 1 <= b' < b ==> fates(e, b') == RequestLost;
      assert forall b' :: a <= b' < b ==> fates(e, b') == RequestLost;
    }
  }

  lemma {:induction false} CourseEnds(c: Config, s: State, fates: Fates, h: nat, sends: nat)
    requires IsFile(c) && PcFits(c, s.pc) && s.pc.Sending? && Agreed(c, s, h)
    requires sends >= FILE_RETRIES * (Chunks(c) + 2 - Exchange(c, s.pc.phase)) - s.pc.attempt
    ensures var t := Course(c, s, fates, Willing(h), sends);
            t.pc.Done? && (t.pc.rc == 0 <==> RestDelivered(c, s, fates))
    decreases sends
  {
    hide Attempt, Storing, Fetching, RestDelivered;
    var e, a := Exchange(c, s.pc.phase), s.pc.attempt;
    var t := Attempt(c, s, fates(e, a), Willing(h));
    AttemptLeads(c, s, fates(e, a), h);
    RestSteps(c, s, fates, h);
    if !Ending(s.pc.phase) {
      NextExchange(c, s.pc.phase);
    }
    assert sends > 0;
    if t.pc.Sending? {
      CourseEnds(c, t, fates, h, sends - 1);
    } else {
      assert Course(c, t, fates, Willing(h), sends - 1) == t;
    }
  }

  lemma StartsAgreed(c: Config, s: State, h: nat)
    requires IsFile(c) && Initial(c, s) && PcFits(c, s.pc)
    requires var s1 := CaughtUp(c, s, h); s1.server.pending == OpNone && HandleReady(s1.server, s1.disk, h)
    ensures var s1 := CaughtUp(c, s, h);
            s1.pc.Sending? && Agreed(c, s1, h) && Beginning(s1.pc.phase)
            && forall fates :: RestDelivered(c, s1, fates) <==> Servable(c) && EnoughDelivered(c, fates)
  {
    hide Idle, HandleReady, FirstArrivalDelivered, DeliveredFrom;
    CatchingUpIsRun(c, s, h);
  }

  function MostPackets(c: Config): nat
    requires IsFile(c)
  {
    10 * (Chunks(c) + 2)
  }

  // The transfer with the network under these fates, from any state in which the
  // server can catch up.
  function Transfer(c: Config, s: State, fates: Fates, h: nat): State
    requires IsFile(c) && PcFits(c, s.pc)
  {
    Course(c, CaughtUp(c, s, h), fates, Willing(h), MostPackets(c))
  }

  predicate Startable(c: Config, s: State, h: nat) {
    && IsFile(c) && Initial(c, s) && PcFits(c, s.pc)
    && var s1 := CaughtUp(c, s, h); s1.server.pending == OpNone && HandleReady(s1.server, s1.disk, h)
  }

  lemma {:induction false} TransferEnds(c: Config, s: State, fates: Fates, h: nat)
    requires Startable(c, s, h)
    ensures var t := Transfer(c, s, fates, h);
            t.pc.Done? && (t.pc.rc == 0 <==> Servable(c) && EnoughDelivered(c, fates))
  {
    hide Attempt, Course, CaughtUp, Idle, HandleReady, RestDelivered, EnoughDelivered;
    StartsAgreed(c, s, h);
    CourseEnds(c, CaughtUp(c, s, h), fates, h, MostPackets(c));
  }

  // Within 10 * (chunks + 2) packets the upload returns, with 0 exactly when
  // enough was delivered; and then the server has closed the complete file.
  lemma {:induction false} PutTolerates(c: Config, s: State, fates: Fates, h: nat)
    requires IsFile(c) && c.job.PutJob? && Initial(c, s) && PcFits(c, s.pc)
    requires HandleReady(CaughtUp(c, s, h).server, CaughtUp(c, s, h).disk, h)
    ensures var t := Transfer(c, s, fates, h);
            && t.pc.Done?
            && (t.pc.rc == 0 <==> EnoughDelivered(c, fates))
            && (t.pc.rc == 0 ==> exists k :: 0 <= k < |t.closings| && t.closings[k].name == Fold(c.name)
                                             && t.closings[k].bytes == c.job.upload)
  {
    hide Attempt, Course, Run, CaughtUp, Idle, HandleReady, EnoughDelivered, NetworkSide;
    PutCatchesUp(c, s, h);
    TransferEnds(c, s, fates, h);
    ScriptFollowsCourse(c, s, fates, h, MostPackets(c));
    var acts := NetworkSide(c, s, fates, h, MostPackets(c));
    assert forall act <- acts :: PutSafety.WholeWrite(act);
    PutSafety.PutSafeWithWholeWrites(c, s, acts);
  }

  lemma PutCatchesUp(c: Config, s: State, h: nat)
    requires IsFile(c) && c.job.PutJob? && PcFits(c, s.pc)
    ensures CaughtUp(c, s, h).server.pending == OpNone
  {
    IdleAnswersItsClient(s.server, s.disk, Willing(h));
    hide Idle;
  }

  // The same for a download: with 0 exactly when enough was delivered and the
  // file is not of the one length that cannot be served; and then the local
  // file is the remote one.
  lemma {:induction false} GetTolerates(c: Config, s: State, fates: Fates, h: nat)
    requires Startable(c, s, h) && c.job.GetJob?
    ensures var t := Transfer(c, s, fates, h);
            && t.pc.Done?
            && (t.pc.rc == 0 <==> |c.job.remote| < 0xffff_ffff && EnoughDelivered(c, fates))
            && (t.pc.rc == 0 ==> t.local == c.job.remote)
  {
    hide Attempt, Course, Run, CaughtUp, Idle, HandleReady, EnoughDelivered, NetworkSide;
    TransferEnds(c, s, fates, h);
    ScriptFollowsCourse(c, s, fates, h, MostPackets(c));
    GetSafety.GetSafe(c, s, NetworkSide(c, s, fates, h, MostPackets(c)));
  }

  // ---- The client's own view --------------------------------------------------------

  // The client runs where the network makes these fates of its packets.
  predicate OnChannel(c: Config, s: State, todo: seq<Action>, fates: Fates, h: nat) {
    Startable(c, s, h) && todo == NetworkSide(c, s, fates, h, MostPackets(c))
  }

  lemma {:induction false} FilePlays(c: Config, s: State, todo: seq<Action>, fates: Fates, h: nat)
    requires OnChannel(c, s, todo, fates, h)
    ensures Play(c, s, todo).pc == Done(0) <==> Servable(c) && EnoughDelivered(c, fates)
  {
    hide Attempt, Course, Run, Play, CaughtUp, Idle, HandleReady, EnoughDelivered, NetworkSide;
    TransferEnds(c, s, fates, h);
    ScriptFollowsCourse(c, s, fates, h, MostPackets(c));
  }
}
