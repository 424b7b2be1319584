/** The client's commands with their loops, each proved to move in step with the
    client of the transition system, so that what is proved about every run of
    that system holds of their results. */
module Client {
  import opened Protocol
  import opened Dos
  import opened FileServerSpec
  import opened System
  import opened Script
  import PutSafety
  import GetSafety
  import DirPaging
  import DirTolerance
  import LossTolerance
  import Wire

  /** The network and everything behind it. `todo` is what will happen there and
      when the client gets to send; it is arbitrary and a command uses it up. When
      nothing is left, the client's waits time out. */
  class Link {
    const c: Config
    ghost const start: State
    ghost var acts: seq<Action>
    var sys: State
    var todo: seq<Action>

    ghost predicate Valid()
      reads this
    {
      && ValidConfig(c) && Initial(c, start) && PcFits(c, start.pc)
      && sys == Run(c, start, acts)
      && Steady(c, sys.disk)
    }

    constructor (config: Config, initial: State, script: seq<Action>)
      requires ValidConfig(config) && Initial(config, initial)
      ensures Valid() && c == config && sys == initial && todo == script
    {
      InitialFits(config, initial);
      c, start, acts, sys, todo := config, initial, [], initial, script;
      RunNothing(config, initial);
    }

    // What the client has so far, and the rest of the world.
    ghost predicate Keeps(s: State)
      reads this
    {
      sys.local == s.local && sys.listed == s.listed
    }

    lemma DoneIsOutcome()
      requires Valid()
      ensures sys.pc.Done? ==> Outcome() == sys
    {
      if sys.pc.Done? {
        PlayDone(c, sys, todo);
      }
    }

    // Where the command ends up from here. Every method keeps it as it is.
    ghost function Outcome(): State
      requires Valid()
      reads this
    {
      Play(c, sys, todo)
    }

    method Take(act: Action)
      requires Valid()
      modifies this`sys, this`acts
      ensures Valid() && PcFits(c, old(sys.pc)) && sys == SteadyStep(c, old(sys), act)
      ensures acts == old(acts) + [act]
    {
      hide Run, Initial, Step, Steady;
      RunExtends(c, start, acts, act);
      sys := SteadyStep(c, sys, act);
      acts := acts + [act];
    }

    // Other parts move until it is the client's turn: to send, to fail locally,
    // or because nothing else is left.
    method AwaitTurn()
      requires Valid() && sys.pc.Sending?
      modifies this`sys, this`acts, this`todo
      ensures Valid() && sys.pc == old(sys.pc) && Keeps(old(sys)) && Outcome() == old(Outcome())
      ensures todo == [] || todo[0] == ClientSends || (todo[0] == ClientAborts && !sys.pc.phase.DirEnding?)
    {
      hide Run, Initial, Steady, Handle, Idle;
      while todo != [] && todo[0] != ClientSends && (todo[0] != ClientAborts || sys.pc.phase.DirEnding?)
        invariant Valid() && sys.pc == old(sys.pc) && Keeps(old(sys)) && Outcome() == old(Outcome())
        decreases |todo|
      {
        var act := todo[0];
        todo := todo[1..];
        if Elsewhere(act) {
          Take(act);
        }
      }
    }

    // Does the local system fail the client here?
    method Fails() returns (failed: bool)
      requires Valid() && sys.pc.Sending? && !sys.pc.phase.DirEnding?
      modifies this`sys, this`acts, this`todo
      ensures Valid() && Keeps(old(sys)) && Outcome() == old(Outcome())
      ensures if failed then sys.pc == Done(-1) else sys.pc == old(sys.pc) && (todo == [] || todo[0] == ClientSends)
    {
      AwaitTurn();
      hide Run, Initial, Steady;
      failed := todo != [] && todo[0] == ClientAborts;
      if failed {
        todo := todo[1..];
        Take(ClientAborts);
      }
    }

    method Sends()
      requires Valid() && PcFits(c, sys.pc) && sys.pc.Sending? && (todo == [] || todo[0] == ClientSends)
      modifies this`sys, this`acts, this`todo
      ensures Valid() && Keeps(old(sys)) && Outcome() == old(Outcome())
      ensures sys.pc == AfterSend(c, old(sys.pc.phase), old(sys.pc.attempt))
    {
      hide Run, Initial, Steady;
      if todo != [] {
        todo := todo[1..];
      }
      Take(ClientSends);
    }

    // send_packet; false when it fails.
    method Send(r: Request) returns (ok: bool)
      requires Valid() && PcFits(c, sys.pc) && sys.pc.Sending? && !sys.pc.phase.DirEnding? && r == RequestOf(c, sys.pc.phase)
      modifies this`sys, this`acts, this`todo
      ensures Valid() && Keeps(old(sys)) && Outcome() == old(Outcome())
      ensures sys.pc == (if ok then AfterSend(c, old(sys.pc.phase), old(sys.pc.attempt)) else Done(-1))
    {
      hide Run, Initial, Steady, Play;
      var failed := Fails();
      ok := !failed;
      if ok {
        Sends();
      }
    }

    // send_packet where the caller does not look at the result: a packet that
    // did not go out is one that got lost.
    method SendUnchecked(r: Request)
      requires Valid() && PcFits(c, sys.pc) && sys.pc.Sending? && sys.pc.phase.DirEnding? && r == RequestOf(c, sys.pc.phase)
      modifies this`sys, this`acts, this`todo
      ensures Valid() && Keeps(old(sys)) && Outcome() == old(Outcome())
      ensures sys.pc == AfterSend(c, old(sys.pc.phase), old(sys.pc.attempt))
    {
      hide Run, Initial, Steady, Play;
      AwaitTurn();
      Sends();
    }

    ghost function PcAfter(p: Phase, attempt: nat, v: Verdict): Pc {
      match v
      case Ignored => Waiting(p, attempt)
      case Failed => Retried(c, p, attempt)
      case Progress(pc, _, _) => pc
    }

    // select and recv: the next message for this socket, or none in time. Any
    // number of steps elsewhere come first.
    method Receive(ghost p: Phase, ghost attempt: nat) returns (m: Option<Datagram>)
      requires Valid() && sys.pc == Waiting(p, attempt) && PhaseFits(c, p)
      modifies this`sys, this`acts, this`todo
      ensures Valid() && |todo| <= |old(todo)| && Outcome() == old(Outcome())
      ensures m == None ==> sys.pc == Retried(c, p, attempt) && Keeps(old(sys))
      ensures m.Some? ==>
                && |todo| < |old(todo)|
                && sys.pc == PcAfter(p, attempt, Judge(c, p, m.value))
                && match Judge(c, p, m.value)
                   case Progress(_, bytes, entries) =>
                     sys.local == old(sys.local) + bytes && sys.listed == old(sys.listed) + entries
                   case _ => Keeps(old(sys))
    {
      hide Run, Initial, Steady, Handle, Idle, Judge;
      while todo != []
        invariant Valid() && sys.pc == Waiting(p, attempt) && Keeps(old(sys)) && |todo| <= |old(todo)|
        invariant Outcome() == old(Outcome())
        decreases |todo|
      {
        var act := todo[0];
        todo := todo[1..];
        match act {
        case ClientGets(d) =>
          if d in sys.toClient {
            Take(act);
            return Some(d);
          }
        case ClientTimesOut =>
          Take(act);
          return None;
        case ServerGets(_) => Take(act);
        case ServerIdles(_) => Take(act);
        case DosElsewhere(_) => Take(act);
        case _ =>
        }
      }
      Take(ClientTimesOut);
      return None;
    }
  }

  // What a file command sends under a name it accepts is what the server reads.
  lemma RequestsTravel(c: Config, p: Phase)
    requires ValidConfig(c) && PhaseFits(c, p) && !c.job.DirJob?
    requires Wire.ValidRemoteName(c.name) && Wire.CString(c.name)
    ensures var r := RequestOf(c, p);
            Wire.Sendable(r) && Wire.Decode(Wire.TypeOf(r), Wire.Encode(r)) == Some(r)
  {
    hide Wire.Decode, Wire.Encode;
    Wire.RequestTravels(RequestOf(c, p));
  }

  // ---- Acknowledged requests ---------------------------------------------------

  method RecvFileAck(link: Link, command: AckCommand, ghost p: Phase, ghost attempt: nat)
    returns (rc: int, offset: Word32)
    requires link.Valid() && link.sys.pc == Waiting(p, attempt) && PhaseFits(link.c, p)
    requires AwaitedAck(p) == Some(command)
    modifies link
    ensures link.Valid() && link.Keeps(old(link.sys)) && link.Outcome() == old(link.Outcome())
    ensures rc == 0 || rc == -1
    ensures link.sys.pc == (if rc == 0 then AfterAck(link.c, p, offset) else Retried(link.c, p, attempt))
  {
    hide Run, Initial, Steady, AfterAck, Play;
    offset := 0;
    while true
      invariant link.Valid() && link.sys.pc == Waiting(p, attempt) && link.Keeps(old(link.sys))
      invariant link.Outcome() == old(link.Outcome())
      decreases |link.todo|
    {
      var received := link.Receive(p, attempt);
      if received == None {
        return -1, offset;
      }
      var d := received.value;
      if d.peer != link.c.me || !d.reply.Ack? || d.reply.id != link.c.id || d.reply.command != command {
        continue;
      }
      if d.reply.status != AckOk {
        return -1, offset;
      }
      return 0, d.reply.offset;
    }
  }

  method SendWithAck(link: Link, r: Request, command: AckCommand, ghost p: Phase)
    returns (rc: int, offset: Word32)
    requires link.Valid() && !link.c.job.DirJob? && link.sys.pc == Sending(p, 0) && PhaseFits(link.c, p)
    requires r == RequestOf(link.c, p) && AwaitedAck(p) == Some(command)
    modifies link
    ensures link.Valid() && link.Keeps(old(link.sys)) && link.Outcome() == old(link.Outcome())
    ensures rc == 0 || rc == -1
    ensures link.sys.pc == (if rc == 0 then AfterAck(link.c, p, offset) else Done(-1))
  {
    hide Run, Initial, Steady, AfterAck, Play;
    offset := 0;
    for attempt := 0 to FILE_RETRIES
      invariant link.Valid() && link.Keeps(old(link.sys)) && link.Outcome() == old(link.Outcome())
      invariant link.sys.pc == (if attempt < FILE_RETRIES then Sending(p, attempt) else Done(-1))
    {
      var sent := link.Send(r);
      if !sent {
        return -1, offset;
      }
      rc, offset := RecvFileAck(link, command, p, attempt);
      if rc == 0 {
        return;
      }
    }
    return -1, offset;
  }

  // ---- Upload ----------------------------------------------------------------------

  // file_transfer_put. A bad name is refused at once; otherwise the command ends
  // where the script of the world around it leads: with 0 only if the server has
  // closed the complete file, short writes apart, and always when every packet
  // gets enough attempts through.
  method FilePut(link: Link, upload: seq<Byte>) returns (rc: int)
    requires link.Valid() && link.c.job == PutJob(upload) && link.sys.pc == Sending(PutBeginning, 0)
    modifies link
    ensures link.Valid()
    ensures !Wire.ValidRemoteName(link.c.name) ==> rc == -1 && link.sys == old(link.sys)
    ensures Wire.ValidRemoteName(link.c.name) ==> link.sys == old(link.Outcome()) && link.sys.pc == Done(rc)
    ensures forall fates, h :: LossTolerance.OnChannel(link.c, old(link.sys), old(link.todo), fates, h) ==>
              (rc == 0 <==> Wire.ValidRemoteName(link.c.name) && LossTolerance.EnoughDelivered(link.c, fates))
    ensures rc == 0 ==> Wire.ValidRemoteName(link.c.name) && PutSafety.Confirmed(link.c, link.sys.closings)
    ensures rc == 0 && (forall act <- link.acts :: PutSafety.WholeWrite(act)) ==>
              exists k :: 0 <= k < |link.sys.closings| && link.sys.closings[k].status == AckOk
                          && link.sys.closings[k].name == Fold(link.c.name) && link.sys.closings[k].bytes == upload
  {
    hide Run, Initial, Steady, Play, SteadyStep, Judge, LossTolerance.OnChannel, LossTolerance.EnoughDelivered;
    ghost var before, todo := link.sys, link.todo;
    forall fates, h | LossTolerance.OnChannel(link.c, before, todo, fates, h)
      ensures Play(link.c, before, todo).pc == Done(0) <==> LossTolerance.EnoughDelivered(link.c, fates)
    {
      LossTolerance.FilePlays(link.c, before, todo, fates, h);
    }
    var id := link.c.id;
    if !Wire.ValidRemoteName(link.c.name) {
      return -1;
    }
    var ackOffset: Word32;
    rc, ackOffset := SendWithAck(link, PutBegin(id, |upload|, link.c.name), AckBegin, PutBeginning);
    if rc != 0 || ackOffset != 0 {
      link.DoneIsOutcome();
      return -1;
    }
    var offset := 0;
    while true
      invariant link.Valid() && offset <= |upload| && link.sys.pc == Sending(NextPut(upload, offset), 0)
      invariant link.Outcome() == old(link.Outcome())
      decreases |upload| - offset
    {
      var n := Min(FILE_TRANSFER_CHUNK_BYTES, |upload| - offset);
      if n == 0 {
        break;
      }
      rc, ackOffset := SendWithAck(link, PutData(id, offset, n, upload[offset..offset + n]), AckData, PutSending(offset, n));
      if rc != 0 || ackOffset != offset + n {
        link.DoneIsOutcome();
        return -1;
      }
      offset := ackOffset;
    }
    var failed := link.Fails();
    if failed {
      link.DoneIsOutcome();
      return -1;
    }
    rc, ackOffset := SendWithAck(link, PutEnd(id, |upload|), AckEnd, PutEnding);
    if rc != 0 || ackOffset != |upload| {
      link.DoneIsOutcome();
      return -1;
    }
    PutSafety.RunKeeps(link.c, link.start, link.acts);
    if forall act <- link.acts :: PutSafety.WholeWrite(act) {
      PutSafety.PutSafeWithWholeWrites(link.c, link.start, link.acts);
    }
    link.DoneIsOutcome();
    return 0;
  }

  // ---- Download --------------------------------------------------------------------

  method RecvFileGetData(link: Link, ghost p: Phase, offset: nat, ghost attempt: nat)
    returns (rc: int, data: seq<Byte>)
    requires link.Valid() && link.sys.pc == Waiting(p, attempt) && PhaseFits(link.c, p)
    requires p.GetFetching? && p.offset == offset
    modifies link
    ensures link.Valid() && link.Outcome() == old(link.Outcome())
    ensures rc == 0 || rc == -1
    ensures rc == 0 ==>
              if |data| == 0 || |data| > p.fileSize - offset then link.sys.pc == Done(-1)
              else && link.sys.pc == Sending(NextGet(offset + |data|, p.fileSize), 0)
                   && link.sys.local == old(link.sys.local) + data
    ensures rc == -1 ==> link.sys.pc == Retried(link.c, p, attempt) && link.Keeps(old(link.sys))
  {
    hide Run, Initial, Steady, NextGet, Play;
    data := [];
    while true
      invariant link.Valid() && link.sys.pc == Waiting(p, attempt) && link.Keeps(old(link.sys))
      invariant link.Outcome() == old(link.Outcome())
      decreases |link.todo|
    {
      var received := link.Receive(p, attempt);
      if received == None {
        return -1, data;
      }
      var d := received.value;
      if d.peer != link.c.me || !d.reply.GetData? || d.reply.id != link.c.id || d.reply.offset != offset {
        continue;
      }
      if d.reply.status != AckOk || |d.reply.data| > FILE_TRANSFER_CHUNK_BYTES {
        return -1, data;
      }
      return 0, d.reply.data;
    }
  }

  method SendWithDataResponse(link: Link, r: Request, ghost p: Phase, offset: nat)
    returns (rc: int, data: seq<Byte>)
    requires link.Valid() && link.sys.pc == Sending(p, 0) && PhaseFits(link.c, p)
    requires p.GetFetching? && p.offset == offset && r == RequestOf(link.c, p)
    modifies link
    ensures link.Valid() && link.Outcome() == old(link.Outcome())
    ensures rc == 0 || rc == -1
    ensures rc == 0 ==>
              if |data| == 0 || |data| > p.fileSize - offset then link.sys.pc == Done(-1)
              else && link.sys.pc == Sending(NextGet(offset + |data|, p.fileSize), 0)
                   && link.sys.local == old(link.sys.local) + data
    ensures rc == -1 ==> link.sys.pc == Done(-1)
  {
    hide Run, Initial, Steady, NextGet, Play;
    data := [];
    for attempt := 0 to FILE_RETRIES
      invariant link.Valid() && link.Keeps(old(link.sys)) && link.Outcome() == old(link.Outcome())
      invariant link.sys.pc == (if attempt < FILE_RETRIES then Sending(p, attempt) else Done(-1))
    {
      var sent := link.Send(r);
      if !sent {
        return -1, [];
      }
      rc, data := RecvFileGetData(link, p, offset, attempt);
      if rc == 0 {
        return;
      }
    }
    return -1, [];
  }

  // file_transfer_get, likewise: with 0 only if the local file is the remote one.
  method FileGet(link: Link) returns (rc: int, local: seq<Byte>)
    requires link.Valid() && link.c.job.GetJob? && link.sys.pc == Sending(GetBeginning, 0) && link.sys.local == []
    modifies link
    ensures link.Valid()
    ensures !Wire.ValidRemoteName(link.c.name) ==> rc == -1 && link.sys == old(link.sys)
    ensures Wire.ValidRemoteName(link.c.name) ==> link.sys == old(link.Outcome()) && link.sys.pc == Done(rc)
    ensures forall fates, h :: LossTolerance.OnChannel(link.c, old(link.sys), old(link.todo), fates, h) ==>
              (rc == 0 <==> Wire.ValidRemoteName(link.c.name) && |link.c.job.remote| < 0xffff_ffff
                            && LossTolerance.EnoughDelivered(link.c, fates))
    ensures rc == 0 ==> Wire.ValidRemoteName(link.c.name) && local == link.c.job.remote
  {
    hide Run, Initial, Steady, Play, SteadyStep, Judge, LossTolerance.OnChannel, LossTolerance.EnoughDelivered;
    ghost var before, todo := link.sys, link.todo;
    forall fates, h | LossTolerance.OnChannel(link.c, before, todo, fates, h)
      ensures Play(link.c, before, todo).pc == Done(0) <==>
                |link.c.job.remote| < 0xffff_ffff && LossTolerance.EnoughDelivered(link.c, fates)
    {
      LossTolerance.FilePlays(link.c, before, todo, fates, h);
    }
    local := [];
    var id := link.c.id;
    if !Wire.ValidRemoteName(link.c.name) {
      return -1, local;
    }
    var fileSize: Word32;
    rc, fileSize := SendWithAck(link, GetBegin(id, link.c.name), AckBegin, GetBeginning);
    if rc != 0 {
      link.DoneIsOutcome();
      return;
    }
    var failed := link.Fails();
    if failed {
      link.DoneIsOutcome();
      return -1, local;
    }
    var offset: nat := 0;
    while offset < fileSize
      invariant link.Valid() && offset <= fileSize
      invariant link.sys.pc == Sending(NextGet(offset, fileSize), 0) && link.sys.local == local
      invariant link.Outcome() == old(link.Outcome())
      decreases fileSize - offset
    {
      var remaining := fileSize - offset;
      var count := if remaining > FILE_TRANSFER_CHUNK_BYTES then FILE_TRANSFER_CHUNK_BYTES else remaining;
      var data;
      rc, data := SendWithDataResponse(link, GetDataReq(id, offset, count), GetFetching(offset, fileSize), offset);
      if rc != 0 || |data| == 0 || |data| > remaining {
        link.DoneIsOutcome();
        return -1, local;
      }
      failed := link.Fails();
      if failed {
        link.DoneIsOutcome();
        return -1, local;
      }
      local := local + data;
      offset := offset + |data|;
    }
    var ackOffset;
    rc, ackOffset := SendWithAck(link, GetEnd(id), AckEnd, GetEnding);
    if rc != 0 {
      link.DoneIsOutcome();
      return;
    }
    GetSafety.GetSafe(link.c, link.start, link.acts);
    link.DoneIsOutcome();
  }

  // ---- Directory -------------------------------------------------------------------

  method RecvDirPage(link: Link, total: nat, maxEntries: nat, ghost p: Phase, ghost attempt: nat)
    returns (rc: int, entries: seq<DirRecord>)
    requires link.Valid() && link.sys.pc == Waiting(p, attempt) && PhaseFits(link.c, p)
    requires p == DirFetching(total) && maxEntries == link.c.job.limit - total
    modifies link
    ensures link.Valid() && link.Outcome() == old(link.Outcome())
    ensures rc == 0 || rc == -1
    ensures rc == 0 ==>
              && |entries| <= DIR_LIST_PAGE_ENTRIES && |entries| <= maxEntries
              && link.sys.listed == old(link.sys.listed) + entries
              && link.sys.pc == Sending(if |entries| < DIR_LIST_PAGE_ENTRIES then DirEnding
                                        else NextDir(total + |entries|, link.c.job.limit), 0)
    ensures rc == -1 ==> link.sys.pc == Retried(link.c, p, attempt) && link.Keeps(old(link.sys))
  {
    hide Run, Initial, Steady, NextDir, Play;
    entries := [];
    while true
      invariant link.Valid() && link.sys.pc == Waiting(p, attempt) && link.Keeps(old(link.sys))
      invariant link.Outcome() == old(link.Outcome())
      decreases |link.todo|
    {
      var received := link.Receive(p, attempt);
      if received == None {
        return -1, [];
      }
      var d := received.value;
      if d.peer != link.c.me || !d.reply.DirData? || d.reply.rid != link.c.id || d.reply.start != total % 0x1_0000 {
        continue;
      }
      if d.reply.status != AckOk || |d.reply.entries| > DIR_LIST_PAGE_ENTRIES || |d.reply.entries| > maxEntries {
        return -1, [];
      }
      return 0, d.reply.entries;
    }
  }

  // remote_dir_fetch, likewise: with 0 only if the entries are those of the
  // listing, all of them up to the limit if no search failed.
  method RemoteDirFetch(link: Link) returns (rc: int, entries: seq<DirRecord>)
    requires link.Valid() && link.c.job.DirJob? && link.sys.pc == Sending(DirBeginning, 0) && link.sys.listed == []
    modifies link
    ensures link.Valid()
    ensures link.sys == old(link.Outcome()) && link.sys.pc == Done(rc)
    ensures forall fates, h :: DirTolerance.OnChannel(link.c, old(link.sys), old(link.todo), fates, h) ==>
              (rc == 0 <==> DirTolerance.Fetchable(link.c, fates))
    ensures var records, limit := link.c.job.records, link.c.job.limit;
            rc == 0 && DirPaging.Countable(records, limit) ==>
              && entries <= DirPaging.Plain(records, limit)
              && (DirPaging.AllReadable(link.acts) ==> entries == DirPaging.Plain(records, limit))
    ensures rc == 0 && DirPaging.AllReadable(link.acts) ==>
              && entries == DirPaging.Fetched(link.c.job.records, link.c.job.limit)
              && DirPaging.LimitFits(link.c.job.records, link.c.job.limit)
  {
    hide Run, Initial, Steady, Play, SteadyStep, Judge, DirTolerance.OnChannel, DirTolerance.Fetchable;
    ghost var before, todo := link.sys, link.todo;
    forall fates, h | DirTolerance.OnChannel(link.c, before, todo, fates, h)
      ensures Play(link.c, before, todo).pc == Done(0) <==> DirTolerance.Fetchable(link.c, fates)
    {
      DirTolerance.DirPlays(link.c, before, todo, fates, h);
    }
    var id, limit := link.c.id, link.c.job.limit;
    entries := [];
    var sent := link.Send(DirBegin(id, link.c.name));
    if !sent {
      link.DoneIsOutcome();
      return -1, entries;
    }
    var total := 0;
    var last := false;
    while total < limit && !last
      invariant link.Valid() && total == |entries| && link.sys.listed == entries && link.Outcome() == old(link.Outcome())
      invariant link.sys.pc == Sending(if last then DirEnding else NextDir(total, limit), 0)
      decreases limit - total, !last
    {
      var page: seq<DirRecord> := [];
      var ok := false;
      for attempt := 0 to DIR_LIST_RETRIES
        invariant link.Valid() && link.sys.listed == entries && !ok && link.Outcome() == old(link.Outcome())
        invariant link.sys.pc == (if attempt < DIR_LIST_RETRIES then Sending(DirFetching(total), attempt) else Done(-1))
      {
        sent := link.Send(DirDataReq(id, total % 0x1_0000, DIR_LIST_PAGE_ENTRIES));
        if !sent {
          link.DoneIsOutcome();
          return -1, entries;
        }
        rc, page := RecvDirPage(link, total, limit - total, DirFetching(total), attempt);
        if rc == 0 {
          ok := true;
          break;
        }
      }
      if !ok {
        link.DoneIsOutcome();
        return -1, entries;
      }
      entries := entries + page;
      total := total + |page|;
      last := |page| < DIR_LIST_PAGE_ENTRIES;
    }
    link.SendUnchecked(DirEnd(id));
    DirPaging.DirSafe(link.c, link.start, link.acts);
    link.DoneIsOutcome();
    return 0, entries;
  }
}
