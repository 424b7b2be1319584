/** How many packets a client sends at most, whatever the network, the server
    and DOS do. Its receive loops have no such bound: each packet for someone
    else starts the wait again. */
module SendBound {
  import opened Protocol
  import opened Dos
  import opened FileServerSpec
  import opened System
  import GetSafety

  // The packets that can follow the exchange of this phase.
  function Later(c: Config, p: Phase): nat
    requires ValidConfig(c) && PhaseFits(c, p)
  {
    match p
    case PutBeginning => FILE_RETRIES * (Pieces(|c.job.upload|, FILE_TRANSFER_CHUNK_BYTES) + 1)
    case PutSending(offset, n) =>
      FILE_RETRIES * (Pieces(|c.job.upload| - offset - n, FILE_TRANSFER_CHUNK_BYTES) + 1)
    case GetBeginning => FILE_RETRIES * (|c.job.remote| + 1)
    case GetFetching(offset, fileSize) => FILE_RETRIES * (fileSize - offset)
    case DirBeginning => DIR_LIST_RETRIES * Pieces(c.job.limit, DIR_LIST_PAGE_ENTRIES) + 1
    case DirFetching(total) => DIR_LIST_RETRIES * (Pieces(c.job.limit - total, DIR_LIST_PAGE_ENTRIES) - 1) + 1
    case _ => 0
  }

  predicate AttemptFits(c: Config, pc: Pc) {
    !pc.Done? ==> pc.attempt < Retries(c)
  }

  // The packets that can follow this program point.
  function Left(c: Config, pc: Pc): nat
    requires ValidConfig(c) && PcFits(c, pc) && AttemptFits(c, pc)
  {
    match pc
    case Sending(p, attempt) =>
      (if p.DirBeginning? || p.DirEnding? then 1 else Retries(c) - attempt) + Later(c, p)
    case Waiting(p, attempt) => Retries(c) - attempt - 1 + Later(c, p)
    case Done(_) => 0
  }

  predicate Sends(s: State, act: Action) {
    act.ClientSends? && s.pc.Sending?
  }

  function PacketsSent(c: Config, s: State, acts: seq<Action>): nat
    requires ValidConfig(c) && PcFits(c, s.pc)
    decreases |acts|
  {
    if acts == [] then 0
    else
      var n := |acts| - 1;
      PacketsSent(c, s, acts[..n]) + if Sends(Run(c, s, acts[..n]), acts[n]) then 1 else 0
  }

  lemma OnePieceLess(n: nat, size: nat)
    requires n > 0 && (size == FILE_TRANSFER_CHUNK_BYTES || size == DIR_LIST_PAGE_ENTRIES)
    ensures Pieces(n, size) >= 1
    ensures n > size ==> Pieces(n - size, size) == Pieces(n, size) - 1
    ensures n <= size ==> Pieces(n, size) == 1
  {
    if size == 512 {
      assert Pieces(n, 512) == (n + 511) / 512;
    } else {
      assert Pieces(n, 16) == (n + 15) / 16;
    }
  }

  // Only sending uses up packets, and nothing gives any back.
  lemma ProgressUsesUp(c: Config, p: Phase, m: Datagram)
    requires ValidConfig(c) && PhaseFits(c, p) && Judge(c, p, m).Progress?
    requires p.GetBeginning? && m.reply.Ack? && m.reply.status == AckOk ==> m.reply.offset <= |c.job.remote|
    ensures var pc := Judge(c, p, m).pc;
            PcFits(c, pc) && AttemptFits(c, pc) && Left(c, pc) <= Later(c, p)
  {
    match p
    case PutBeginning => StartsSending(c, 0);
    case PutSending(offset, n) => StartsSending(c, offset + n);
    case DirFetching(total) =>
      OnePieceLess(c.job.limit - total, DIR_LIST_PAGE_ENTRIES);
    case _ =>
  }

  lemma StartsSending(c: Config, offset: nat)
    requires ValidConfig(c) && c.job.PutJob? && offset <= |c.job.upload|
    ensures var pc := Sending(NextPut(c.job.upload, offset), 0);
            && PcFits(c, pc) && AttemptFits(c, pc)
            && Left(c, pc) == FILE_RETRIES * (Pieces(|c.job.upload| - offset, FILE_TRANSFER_CHUNK_BYTES) + 1)
  {
    if offset < |c.job.upload| {
      OnePieceLess(|c.job.upload| - offset, FILE_TRANSFER_CHUNK_BYTES);
    }
  }

  lemma StepUsesUp(c: Config, s: State, act: Action)
    requires ValidConfig(c) && PcFits(c, s.pc) && AttemptFits(c, s.pc) && Steady(c, s.disk)
    requires c.job.GetJob? ==> GetSafety.Inv(c, s)
    ensures var t := SteadyStep(c, s, act);
            && PcFits(c, t.pc) && AttemptFits(c, t.pc) && Steady(c, t.disk)
            && Left(c, t.pc) + (if Sends(s, act) then 1 else 0) <= Left(c, s.pc)
  {
    hide Handle, Idle, Judge, Steady, GetSafety.ServerInv, GetSafety.OwnFrame;
    StepFits(c, s, act);
    if act.ClientGets? && s.pc.Waiting? && act.m in s.toClient && Judge(c, s.pc.phase, act.m).Progress? {
      BeginIsTruthful(c, s, act.m);
      ProgressUsesUp(c, s.pc.phase, act.m);
    }
  }

  lemma BeginIsTruthful(c: Config, s: State, m: Datagram)
    requires ValidConfig(c) && s.pc.Waiting? && PcFits(c, s.pc) && m in s.toClient
    requires c.job.GetJob? ==> GetSafety.Inv(c, s)
    requires Judge(c, s.pc.phase, m).Progress?
    ensures s.pc.phase.GetBeginning? && m.reply.Ack? && m.reply.status == AckOk ==> m.reply.offset <= |c.job.remote|
  {
    if c.job.GetJob? {
      assert GetSafety.Truthful(c, m);
    }
  }

  lemma {:induction false} RunUsesUp(c: Config, s: State, acts: seq<Action>)
    requires ValidConfig(c) && Initial(c, s)
    ensures PcFits(c, s.pc) && AttemptFits(c, s.pc)
    ensures var t := Run(c, s, acts);
            && AttemptFits(c, t.pc) && Steady(c, t.disk)
            && Left(c, t.pc) + PacketsSent(c, s, acts) <= Left(c, s.pc)
    decreases |acts|
  {
    hide Steady, Left, Sends;
    InitialFits(c, s);
    if acts != [] {
      var n := |acts| - 1;
      RunUsesUp(c, s, acts[..n]);
      if c.job.GetJob? {
        GetSafety.RunKeeps(c, s, acts[..n]);
      }
      StepUsesUp(c, Run(c, s, acts[..n]), acts[n]);
    }
  }

  // Ten packets for each chunk of an upload, BEGIN and END; ten for each byte
  // of a download (reads may come that short), BEGIN and END; five for each
  // page of a listing, and one BEGIN and END.
  lemma SendsBounded(c: Config, s: State, acts: seq<Action>)
    requires ValidConfig(c) && Initial(c, s)
    ensures PcFits(c, s.pc)
    ensures match c.job
            case PutJob(upload) => PacketsSent(c, s, acts) <= 10 * ((|upload| + 511) / 512 + 2)
            case GetJob(remote) => PacketsSent(c, s, acts) <= 10 * (|remote| + 2)
            case DirJob(_, _, limit) => PacketsSent(c, s, acts) <= 5 * ((limit + 15) / 16) + 2
  {
    RunUsesUp(c, s, acts);
  }
}
