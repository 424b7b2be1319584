/** A run in which a short DOS write spoils an upload that reports success. */
module ShortWrite {
  import opened Protocol
  import opened Dos
  import opened FileServerSpec
  import opened System
  import opened Channel
  import opened PutSafety

  const ME := Peer([], 1)

  // Two bytes, 1 and 2, to the file A.
  const TWO_BYTES := Config(PutJob([1, 2]), 7, ME, "A")

  const IDLE_SERVER: FileState :=
    Fields(false, ModeNone, OpNone, ME, 0, 0, 0, -1, "", seq(FILE_TRANSFER_CHUNK_BYTES, _ => 0),
           0, 0, AckBegin, AckOk, 0, 0, 0, 0, 0, "", "")

  const EMPTY_DISK := Disk(map[], {}, map[], map[], ServerDta, map[])

  const START := State(Sending(PutBeginning, 0), [], [], {}, {}, IDLE_SERVER, EMPTY_DISK, 0, [])

  // DOS opens handle 5 and has room for `room` bytes of a write.
  function Room(room: nat): Answers {
    Answers(5, -1, 0, room, true, true, true, [])
  }

  const DATA := PutData(7, 0, 2, [1, 2])

  // The open file once `bytes` are in it, with `expected` of them acknowledged.
  predicate Holding(g: FileState, d: Disk, expected: nat, bytes: seq<Byte>) {
    && g.pending == OpNone && InTransfer(g, ModePut, 7) && g.size == 2 && g.expected == expected && g.handle == 5
    && d.files == map["A" := bytes] && d.open == map[5 := OpenFile("A", |bytes|)]
  }

  lemma Begins()
    ensures var g1 := Handle(IDLE_SERVER, Frame(ME, PutBegin(7, 2, "A")));
            var o := Idle(g1, EMPTY_DISK, Room(0));
            && Holding(o.g, o.d, 0, []) && o.out == [Datagram(ME, Ack(7, AckBegin, AckOk, 0))]
            && SlackAfter(g1, EMPTY_DISK, Room(0), 0) == 0 && ClosingOf(g1, EMPTY_DISK, 0) == []
  {
    assert Fold("A") == "A";
  }

  // The first write stores one byte of two and is an error; the retry is
  // appended behind that byte.
  lemma Writes(g: FileState, d: Disk, bytes: seq<Byte>, room: nat)
    requires Holding(g, d, 0, bytes) && |bytes| <= 1 && 1 <= room <= 2
    ensures var g1 := Handle(g, Frame(ME, DATA));
            var o := Idle(g1, d, Room(room));
            && Holding(o.g, o.d, if room == 2 then 2 else 0, bytes + [1, 2][..room])
            && o.out == [Datagram(ME, if room == 2 then Ack(7, AckData, AckOk, 2) else Ack(7, AckData, AckError, 0))]
            && (forall slack: nat :: SlackAfter(g1, d, Room(room), slack) == if room == 2 then slack else slack + 1)
            && (forall slack: nat :: ClosingOf(g1, d, slack) == [])
  {
    var g1 := Handle(g, Frame(ME, DATA));
    assert [1, 2][..2] == [1, 2];
    assert g1.chunk[..2] == [1, 2];
    assert Overwritten(bytes, |bytes|, [1, 2][..room]) == bytes + [1, 2][..room];
  }

  lemma Ends(g: FileState, d: Disk, bytes: seq<Byte>, slack: nat)
    requires Holding(g, d, 2, bytes)
    ensures var g1 := Handle(g, Frame(ME, PutEnd(7, 2)));
            && Idle(g1, d, Room(0)).out == [Datagram(ME, Ack(7, AckEnd, AckOk, 2))]
            && ClosingOf(g1, d, slack) == [Closing(7, "A", AckOk, bytes, slack)]
  {
  }

  // The client returns 0, the END step acknowledged OK, and the file it closed
  // is not the upload: its first byte is there twice.
  lemma ShortWriteSpoils() returns (acts: seq<Action>)
    ensures IsPut(TWO_BYTES) && Initial(TWO_BYTES, START) && PcFits(TWO_BYTES, START.pc)
    ensures var t := Run(TWO_BYTES, START, acts);
            t.pc == Done(0) && t.closings == [Closing(7, "A", AckOk, [1, 1, 2], 1)]
  {
    hide Idle, Handle, Run, SlackAfter, ClosingOf, Attempt, Holding, AttemptActions;
    RunNothing(TWO_BYTES, START);
    assert [1, 2][0..2] == [1, 2];
    assert [] + [1, 2][..1] == [1];
    assert [1] + [1, 2][..2] == [1, 1, 2];
    Begins();
    var s1 := Exchanged(START, 0);
    AttemptIsRun(TWO_BYTES, START, [], START, Delivered, Room(0));
    acts := [] + AttemptActions(TWO_BYTES, START, Delivered, Room(0));
    Writes(s1.server, s1.disk, [], 1);
    var s2 := Exchanged(s1, 1);
    AttemptIsRun(TWO_BYTES, START, acts, s1, Delivered, Room(1));
    acts := acts + AttemptActions(TWO_BYTES, s1, Delivered, Room(1));
    Writes(s2.server, s2.disk, [1], 2);
    var s3 := Exchanged(s2, 2);
    AttemptIsRun(TWO_BYTES, START, acts, s2, Delivered, Room(2));
    acts := acts + AttemptActions(TWO_BYTES, s2, Delivered, Room(2));
    Ends(s3.server, s3.disk, [1, 1, 2], s3.slack);
    var s4 := Exchanged(s3, 0);
    AttemptIsRun(TWO_BYTES, START, acts, s3, Delivered, Room(0));
    acts := acts + AttemptActions(TWO_BYTES, s3, Delivered, Room(0));
  }

  lemma Exchanged(s: State, room: nat) returns (t: State)
    requires PcFits(TWO_BYTES, s.pc) && s.pc.Sending?
    ensures t == Attempt(TWO_BYTES, s, Delivered, Room(room))
    ensures var g, o := Taken(TWO_BYTES, s), Served(TWO_BYTES, s, Room(room));
            && t.server == o.g && t.disk == o.d
            && t.slack == SlackAfter(g, s.disk, Room(room), s.slack)
            && t.closings == s.closings + ClosingOf(g, s.disk, s.slack)
            && (o.out != [] ==>
                  match Judge(TWO_BYTES, s.pc.phase, o.out[0])
                  case Ignored => t.pc == Waiting(s.pc.phase, s.pc.attempt)
                  case Failed => t.pc == Retried(TWO_BYTES, s.pc.phase, s.pc.attempt)
                  case Progress(pc, _, _) => t.pc == pc)
  {
    hide Idle, Handle, SlackAfter, ClosingOf, Attempt;
    t := Attempt(TWO_BYTES, s, Delivered, Room(room));
    AttemptServes(TWO_BYTES, s, Delivered, Room(room));
    AttemptMoves(TWO_BYTES, s, Delivered, Room(room));
  }
}
