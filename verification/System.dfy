/** The whole system as a transition system: one client running one job, the
    server, its disk, and a network that may lose, duplicate and reorder.

    The network is the set of everything ever sent: a delivery takes an element
    and leaves it there, so a message can be lost, repeated, delivered late and
    out of order. A timeout is a step the client may take whenever it waits.
    The transfer or request id of the job is used by no one else; all other
    frames are arbitrary. */
module System {
  import opened Protocol
  import opened Dos
  import opened FileServerSpec

  // A job together with what has to stay put while it runs: nothing for an
  // upload, the remote file for a download, the listing for a directory.
  datatype Job =
    | PutJob(upload: seq<Byte>)
    | GetJob(remote: seq<Byte>)
    | DirJob(pattern: Name, records: seq<DirRecord>, limit: nat)

  datatype Config = Config(job: Job, id: Word32, me: Peer, name: Name)

  predicate ValidConfig(c: Config) {
    match c.job
    case PutJob(upload) => |upload| <= MAX_FILE_BYTES
    case GetJob(remote) => |remote| <= MAX_FILE_BYTES
    case DirJob(pattern, records, limit) => DirPattern(c.name) == Some(pattern)
  }

  datatype Phase =
    | PutBeginning | PutSending(offset: nat, n: nat) | PutEnding
    | GetBeginning | GetFetching(offset: nat, fileSize: nat) | GetEnding
    | DirBeginning | DirFetching(total: nat) | DirEnding

  // Where the client is: about to send a request, waiting for its answer, or
  // returned with a result (0 is success).
  datatype Pc =
    | Sending(phase: Phase, attempt: nat)
    | Waiting(phase: Phase, attempt: nat)
    | Done(rc: int)

  function PhaseOf(pc: Pc): Phase
    requires !pc.Done?
  {
    pc.phase
  }

  // A PUT_END step: what the server's file held when it was closed, and how
  // many bytes short writes had left in it.
  datatype Closing = Closing(id: Word32, name: Name, status: AckStatus, bytes: seq<Byte>, slack: nat)

  datatype State = State(
    pc: Pc,
    local: seq<Byte>,
    listed: seq<DirRecord>,
    toServer: set<Frame>,
    toClient: set<Datagram>,
    server: FileState,
    disk: Disk,
    slack: nat,
    closings: seq<Closing>)

  const FILE_RETRIES := 10
  const DIR_LIST_RETRIES := 5

  // ---- The client ----------------------------------------------------------

  function Retries(c: Config): nat {
    if c.job.DirJob? then DIR_LIST_RETRIES else FILE_RETRIES
  }

  // The next read of the local file: a chunk, or nothing left to send.
  function NextPut(upload: seq<Byte>, offset: nat): Phase {
    var n := Min(FILE_TRANSFER_CHUNK_BYTES, |upload| - offset);
    if n <= 0 then PutEnding else PutSending(offset, n)
  }

  function NextGet(offset: nat, fileSize: nat): Phase {
    if offset < fileSize then GetFetching(offset, fileSize) else GetEnding
  }

  function NextDir(total: nat, limit: nat): Phase {
    if total < limit then DirFetching(total) else DirEnding
  }

  function FirstPhase(c: Config): Phase {
    match c.job
    case PutJob(_) => PutBeginning
    case GetJob(_) => GetBeginning
    case DirJob(_, _, _) => DirBeginning
  }

  predicate PhaseFits(c: Config, p: Phase) {
    match p
    case PutSending(offset, n) => c.job.PutJob? && offset + n <= |c.job.upload| && 1 <= n <= FILE_TRANSFER_CHUNK_BYTES
    case GetFetching(offset, fileSize) => c.job.GetJob? && offset < fileSize <= MAX_FILE_BYTES
    case PutBeginning => c.job.PutJob?
    case PutEnding => c.job.PutJob?
    case GetBeginning => c.job.GetJob?
    case GetEnding => c.job.GetJob?
    case DirBeginning => c.job.DirJob?
    case DirFetching(total) => c.job.DirJob? && total < c.job.limit
    case DirEnding => c.job.DirJob?
  }

  function RequestOf(c: Config, p: Phase): Request
    requires ValidConfig(c) && PhaseFits(c, p)
  {
    match p
    case PutBeginning => PutBegin(c.id, |c.job.upload|, c.name)
    case PutSending(offset, n) => PutData(c.id, offset, n, c.job.upload[offset..offset + n])
    case PutEnding => PutEnd(c.id, |c.job.upload|)
    case GetBeginning => GetBegin(c.id, c.name)
    case GetFetching(offset, fileSize) => GetDataReq(c.id, offset, Min(FILE_TRANSFER_CHUNK_BYTES, fileSize - offset))
    case GetEnding => GetEnd(c.id)
    case DirBeginning => DirBegin(c.id, c.name)
    case DirFetching(total) => DirDataReq(c.id, total % 0x1_0000, DIR_LIST_PAGE_ENTRIES)
    case DirEnding => DirEnd(c.id)
  }

  // Directory BEGIN and END are sent once and not acknowledged.
  function AfterSend(c: Config, p: Phase, attempt: nat): Pc {
    match p
    case DirBeginning => Sending(NextDir(0, if c.job.DirJob? then c.job.limit else 0), 0)
    case DirEnding => Done(0)
    case _ => Waiting(p, attempt)
  }

  function Retried(c: Config, p: Phase, attempt: nat): Pc {
    if attempt + 1 < Retries(c) then Sending(p, attempt + 1) else Done(-1)
  }

  function AwaitedAck(p: Phase): Option<AckCommand> {
    match p
    case PutBeginning => Some(AckBegin)
    case PutSending(_, _) => Some(AckData)
    case PutEnding => Some(AckEnd)
    case GetBeginning => Some(AckBegin)
    case GetEnding => Some(AckEnd)
    case _ => None
  }

  // The next program point once an OK acknowledgement with this offset is in.
  function AfterAck(c: Config, p: Phase, offset: Word32): Pc
    requires PhaseFits(c, p) && AwaitedAck(p).Some?
  {
    match p
    case PutBeginning => if offset == 0 then Sending(NextPut(c.job.upload, 0), 0) else Done(-1)
    case PutSending(at, n) => if offset == at + n then Sending(NextPut(c.job.upload, offset), 0) else Done(-1)
    case PutEnding => Done(if offset == |c.job.upload| then 0 else -1)
    case GetBeginning => Sending(NextGet(0, offset), 0)
    case GetEnding => Done(0)
  }

  // What the client makes of a message while it waits: nothing, a failed
  // attempt, or progress with the bytes and entries it keeps.
  datatype Verdict = Ignored | Failed | Progress(pc: Pc, bytes: seq<Byte>, entries: seq<DirRecord>)

  function Judge(c: Config, p: Phase, m: Datagram): Verdict
    requires PhaseFits(c, p)
  {
    if m.peer != c.me then Ignored
    else
      match m.reply
      case Ack(id, command, status, offset) =>
        if id != c.id || AwaitedAck(p) != Some(command) then Ignored
        else if status != AckOk then Failed
        else Progress(AfterAck(c, p, offset), [], [])
      case GetData(id, offset, status, data) =>
        if id != c.id || !p.GetFetching? || offset != p.offset then Ignored
        else if status != AckOk || |data| > FILE_TRANSFER_CHUNK_BYTES then Failed
        else if |data| == 0 || |data| > p.fileSize - p.offset then Progress(Done(-1), [], [])
        else Progress(Sending(NextGet(p.offset + |data|, p.fileSize), 0), data, [])
      case DirData(rid, start, status, entries) =>
        if rid != c.id || !p.DirFetching? || start != p.total % 0x1_0000 then Ignored
        else if status != AckOk || |entries| > DIR_LIST_PAGE_ENTRIES || |entries| > c.job.limit - p.total then Failed
        else
          var total := p.total + |entries|;
          Progress(Sending(if |entries| < DIR_LIST_PAGE_ENTRIES then DirEnding else NextDir(total, c.job.limit), 0),
                   [], entries)
  }

  // The client heeds exactly the replies to what it sent, and an error status
  // fails its attempt.
  lemma JudgeHeedsReplies(c: Config, p: Phase, m: Datagram)
    requires ValidConfig(c) && PhaseFits(c, p)
    ensures Judge(c, p, m).Ignored? <==> m.peer != c.me || !RepliesTo(RequestOf(c, p), m.reply)
    ensures !Judge(c, p, m).Ignored? && m.reply.status != AckOk ==> Judge(c, p, m).Failed?
  {
  }

  function Receive(c: Config, s: State, m: Datagram): State
    requires s.pc.Waiting? && PhaseFits(c, s.pc.phase)
  {
    match Judge(c, s.pc.phase, m)
    case Ignored => s
    case Failed => s.(pc := Retried(c, s.pc.phase, s.pc.attempt))
    case Progress(pc, bytes, entries) => s.(pc := pc, local := s.local + bytes, listed := s.listed + entries)
  }

  // ---- Steps ---------------------------------------------------------------

  datatype Action =
    | ClientSends
    | ClientGets(m: Datagram)
    | ClientTimesOut
    | ClientAborts                 // a local failure: sendto, fread, fwrite
    | ServerGets(f: Frame)
    | ServerIdles(a: Answers)
    | DosElsewhere(d: Disk)        // the program DOS is running

  predicate Ours(c: Config, r: Request) {
    if IsDirectoryRequest(r) then c.job.DirJob? && r.rid == c.id else !c.job.DirJob? && r.id == c.id
  }

  // Other programs leave the server's handles and the files behind them alone.
  predicate LeavesServerAlone(d: Disk, d': Disk) {
    && d'.open == d.open
    && forall h <- d.open.Keys ::
         d.open[h].name in d.files ==>
           d.open[h].name in d'.files && d'.files[d.open[h].name] == d.files[d.open[h].name]
  }

  // The bytes a short write leaves in the file beyond the offset the server
  // goes on to expect.
  function SlackAfter(g: FileState, d: Disk, a: Answers, slack: nat): nat {
    if g.pending == OpPutBegin then 0
    else if g.pending == OpPutData && g.chunkOffset == g.expected then
      var n := Write(d, g.handle, g.chunk[..g.chunkCount], a.written).1;
      if 0 <= n < g.chunkCount then slack + n else slack
    else slack
  }

  function ClosingOf(g: FileState, d: Disk, slack: nat): seq<Closing> {
    if g.pending == OpPutEnd && IsOpen(d, g.handle) then
      [Closing(g.transferId, d.open[g.handle].name, OkIf(g.expected == g.size), Content(d, g.handle), slack)]
    else []
  }

  function Sent(out: seq<Datagram>): set<Datagram> {
    set m <- out
  }

  function IdleStep(s: State, a: Answers): State {
    var o := Idle(s.server, s.disk, a);
    s.(server := o.g, disk := o.d, toClient := s.toClient + Sent(o.out),
       slack := SlackAfter(s.server, s.disk, a, s.slack),
       closings := s.closings + ClosingOf(s.server, s.disk, s.slack))
  }

  predicate PcFits(c: Config, pc: Pc) {
    !pc.Done? ==> PhaseFits(c, pc.phase)
  }

  // An action that is not possible in a state changes nothing.
  function Step(c: Config, s: State, act: Action): State
    requires ValidConfig(c) && PcFits(c, s.pc)
  {
    match act
    case ClientSends =>
      if !s.pc.Sending? then s
      else s.(toServer := s.toServer + {Frame(c.me, RequestOf(c, s.pc.phase))},
              pc := AfterSend(c, s.pc.phase, s.pc.attempt))
    case ClientGets(m) =>
      if !s.pc.Waiting? || m !in s.toClient then s else Receive(c, s, m)
    case ClientTimesOut =>
      if !s.pc.Waiting? then s else s.(pc := Retried(c, s.pc.phase, s.pc.attempt))
    case ClientAborts =>
      if s.pc.Done? then s else s.(pc := Done(-1))
    case ServerGets(f) =>
      if f !in s.toServer && Ours(c, f.body) then s else s.(server := Handle(s.server, f))
    case ServerIdles(a) => IdleStep(s, a)
    case DosElsewhere(d) =>
      if !LeavesServerAlone(s.disk, d) then s else s.(disk := d)
  }

  // What the job relies on in the disk.
  predicate Steady(c: Config, d: Disk) {
    match c.job
    case PutJob(_) => true
    case GetJob(remote) => Fold(c.name) in d.files && d.files[Fold(c.name)] == remote
    case DirJob(pattern, records, _) => Listing(d, pattern) == records
  }

  function SteadyStep(c: Config, s: State, act: Action): State
    requires ValidConfig(c) && PcFits(c, s.pc)
  {
    var t := Step(c, s, act);
    if Steady(c, t.disk) then t else s
  }

  // The server has never worked for this id.
  predicate Fresh(c: Config, g: FileState) {
    if c.job.DirJob? then
      (g.mode == ModeDir || g.pending == OpDirListDataReq) ==> g.dirRequestId != c.id
    else
      g.transferId == c.id ==> !g.active && g.pending == OpNone
  }

  predicate Initial(c: Config, s: State) {
    && s.pc == Sending(FirstPhase(c), 0)
    && s.local == [] && s.listed == []
    && s.toServer == {} && s.toClient == {} && s.closings == []
    && Fresh(c, s.server)
    && Steady(c, s.disk)
  }

  lemma ReceiveFits(c: Config, s: State, m: Datagram)
    requires ValidConfig(c) && PcFits(c, s.pc) && s.pc.Waiting?
    ensures PcFits(c, Receive(c, s, m).pc)
  {
    hide DirPattern;
  }

  lemma StepFits(c: Config, s: State, act: Action)
    requires ValidConfig(c) && PcFits(c, s.pc)
    ensures PcFits(c, Step(c, s, act).pc) && PcFits(c, SteadyStep(c, s, act).pc)
  {
    hide Idle, Handle, SlackAfter, ClosingOf, DirPattern, Steady, Receive;
    if act.ClientGets? && s.pc.Waiting? {
      ReceiveFits(c, s, act.m);
    }
  }

  // The state after a run; every run is some list of actions.
  function Run(c: Config, s: State, acts: seq<Action>): (t: State)
    requires ValidConfig(c) && PcFits(c, s.pc)
    ensures PcFits(c, t.pc)
    decreases |acts|
  {
    if acts == [] then s
    else
      StepFits(c, Run(c, s, acts[..|acts| - 1]), acts[|acts| - 1]);
      SteadyStep(c, Run(c, s, acts[..|acts| - 1]), acts[|acts| - 1])
  }

  lemma InitialFits(c: Config, s: State)
    requires Initial(c, s)
    ensures PcFits(c, s.pc)
  {
  }

  lemma RunNothing(c: Config, s: State)
    requires ValidConfig(c) && PcFits(c, s.pc)
    ensures Run(c, s, []) == s
  {
  }

  lemma RunExtends(c: Config, s: State, acts: seq<Action>, act: Action)
    requires ValidConfig(c) && PcFits(c, s.pc)
    ensures Run(c, s, acts + [act]) == SteadyStep(c, Run(c, s, acts), act)
  {
    assert (acts + [act])[..|acts|] == acts;
  }
}
