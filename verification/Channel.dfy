/** A channel that loses messages but delivers none late: each packet of the
    client is one attempt with a fate of its own. */
module Channel {
  import opened Protocol
  import opened Dos
  import opened FileServerSpec
  import opened System
  import opened Script

  // What becomes of one attempt.
  datatype Fate = RequestLost | AckLost | Delivered

  // The fate of attempt `a` of exchange `e`: BEGIN is exchange 0, then come
  // the chunks or pages, then END.
  type Fates = (nat, nat) -> Fate

  // Every DOS call succeeds, whole, and a new file gets handle `h`.
  function Willing(h: nat): Answers {
    Answers(h, -1, FILE_TRANSFER_CHUNK_BYTES, FILE_TRANSFER_CHUNK_BYTES, true, true, true, [])
  }

  // One attempt: the request is sent, and unless it is lost the server takes
  // it, runs it and answers; without an answer the client times out.
  function Attempt(c: Config, s: State, fate: Fate, a: Answers): (t: State)
    requires ValidConfig(c) && PcFits(c, s.pc) && s.pc.Sending?
    ensures PcFits(c, t.pc)
  {
    var f := Frame(c.me, RequestOf(c, s.pc.phase));
    StepFits(c, s, ClientSends);
    var sent := SteadyStep(c, s, ClientSends);
    StepFits(c, sent, ClientTimesOut);
    if fate == RequestLost then SteadyStep(c, sent, ClientTimesOut)
    else
      StepFits(c, sent, ServerGets(f));
      var taken := SteadyStep(c, sent, ServerGets(f));
      var out := Idle(taken.server, taken.disk, a).out;
      StepFits(c, taken, ServerIdles(a));
      var ran := SteadyStep(c, taken, ServerIdles(a));
      var last := if fate == AckLost || out == [] then ClientTimesOut else ClientGets(out[0]);
      StepFits(c, ran, last);
      SteadyStep(c, ran, last)
  }

  // The bytes or the entries that are fetched or sent in pieces.
  function Exchange(c: Config, p: Phase): nat
    requires ValidConfig(c) && PhaseFits(c, p)
  {
    match p
    case PutSending(offset, n) => 1 + offset / FILE_TRANSFER_CHUNK_BYTES
    case PutEnding => 1 + Pieces(|c.job.upload|, FILE_TRANSFER_CHUNK_BYTES)
    case GetFetching(offset, fileSize) => 1 + offset / FILE_TRANSFER_CHUNK_BYTES
    case GetEnding => 1 + Pieces(|c.job.remote|, FILE_TRANSFER_CHUNK_BYTES)
    case DirFetching(total) => 1 + total / DIR_LIST_PAGE_ENTRIES
    case DirEnding => 1 + Pieces(c.job.limit, DIR_LIST_PAGE_ENTRIES)
    case _ => 0
  }

  // The job under these fates, cut off after `sends` packets.
  function Course(c: Config, s: State, fates: Fates, a: Answers, sends: nat): State
    requires ValidConfig(c) && PcFits(c, s.pc)
    decreases sends
  {
    if sends == 0 || !s.pc.Sending? then s
    else Course(c, Attempt(c, s, fates(Exchange(c, s.pc.phase), s.pc.attempt), a), fates, a, sends - 1)
  }

  predicate DeliveredFrom(fates: Fates, e: nat, a: nat, retries: nat) {
    exists b :: a <= b < retries && fates(e, b) == Delivered
  }

  // ---- What an attempt does ----------------------------------------------------

  function Taken(c: Config, s: State): FileState
    requires ValidConfig(c) && PcFits(c, s.pc) && s.pc.Sending?
  {
    Handle(s.server, Frame(c.me, RequestOf(c, s.pc.phase)))
  }

  // The server's part of an attempt whose request arrives.
  function Served(c: Config, s: State, a: Answers): Outcome
    requires ValidConfig(c) && PcFits(c, s.pc) && s.pc.Sending?
  {
    Idle(Taken(c, s), s.disk, a)
  }

  predicate Answered(p: Phase) {
    !p.DirBeginning? && !p.DirEnding?
  }

  // What the server has afterwards.
  lemma AttemptServes(c: Config, s: State, fate: Fate, a: Answers)
    requires ValidConfig(c) && PcFits(c, s.pc) && s.pc.Sending?
    requires Steady(c, s.disk) && Steady(c, Served(c, s, a).d)
    ensures var t, o := Attempt(c, s, fate, a), Served(c, s, a);
            if fate == RequestLost then
              t.server == s.server && t.disk == s.disk && t.slack == s.slack && t.closings == s.closings
            else
              && t.server == o.g && t.disk == o.d
              && t.slack == SlackAfter(Taken(c, s), s.disk, a, s.slack)
              && t.closings == s.closings + ClosingOf(Taken(c, s), s.disk, s.slack)
  {
    hide Idle, Handle, SlackAfter, ClosingOf, Steady, RequestOf, AfterSend, Retried, Judge;
  }

  // Where the client is afterwards.
  lemma AttemptMoves(c: Config, s: State, fate: Fate, a: Answers)
    requires ValidConfig(c) && PcFits(c, s.pc) && s.pc.Sending? && Answered(s.pc.phase)
    requires Steady(c, s.disk) && Steady(c, Served(c, s, a).d)
    ensures var t, out := Attempt(c, s, fate, a), Served(c, s, a).out;
            if fate != Delivered || out == [] then
              t.pc == Retried(c, s.pc.phase, s.pc.attempt) && t.local == s.local && t.listed == s.listed
            else
              match Judge(c, s.pc.phase, out[0])
              case Ignored => t.pc == Waiting(s.pc.phase, s.pc.attempt)
              case Failed => t.pc == Retried(c, s.pc.phase, s.pc.attempt) && t.local == s.local && t.listed == s.listed
              case Progress(pc, bytes, entries) =>
                t.pc == pc && t.local == s.local + bytes && t.listed == s.listed + entries
  {
    hide Idle, Handle, SlackAfter, ClosingOf, Steady, RequestOf, Retried, Judge;
    assert AfterSend(c, s.pc.phase, s.pc.attempt) == Waiting(s.pc.phase, s.pc.attempt);
  }

  // Directory BEGIN and END are not answered.
  lemma UnansweredMoves(c: Config, s: State, fate: Fate, a: Answers)
    requires ValidConfig(c) && PcFits(c, s.pc) && s.pc.Sending? && !Answered(s.pc.phase)
    requires Steady(c, s.disk) && Steady(c, Served(c, s, a).d)
    ensures var t := Attempt(c, s, fate, a);
            t.pc == AfterSend(c, s.pc.phase, s.pc.attempt) && t.local == s.local && t.listed == s.listed
  {
    hide Idle, Handle, SlackAfter, ClosingOf, Steady, RequestOf, Retried, Judge;
  }

  // ---- It is a run of the system -------------------------------------------------

  // What happens in an attempt, in its order.
  function AttemptActions(c: Config, s: State, fate: Fate, a: Answers): seq<Action>
    requires ValidConfig(c) && PcFits(c, s.pc) && s.pc.Sending?
  {
    var out := Served(c, s, a).out;
    if fate == RequestLost then [ClientSends, ClientTimesOut]
    else [ClientSends, ServerGets(Frame(c.me, RequestOf(c, s.pc.phase))), ServerIdles(a),
          if fate == AckLost || out == [] then ClientTimesOut else ClientGets(out[0])]
  }

  function CourseActions(c: Config, s: State, fates: Fates, a: Answers, sends: nat): seq<Action>
    requires ValidConfig(c) && PcFits(c, s.pc)
    decreases sends
  {
    if sends == 0 || !s.pc.Sending? then []
    else
      var fate := fates(Exchange(c, s.pc.phase), s.pc.attempt);
      AttemptActions(c, s, fate, a) + CourseActions(c, Attempt(c, s, fate, a), fates, a, sends - 1)
  }

  // All idle calls of the run got these answers.
  predicate AnsweredBy(acts: seq<Action>, a: Answers) {
    forall act <- acts :: act.ServerIdles? ==> act.a == a
  }

  lemma {:induction false} CourseIsAnsweredBy(c: Config, s: State, fates: Fates, a: Answers, sends: nat)
    requires ValidConfig(c) && PcFits(c, s.pc)
    ensures AnsweredBy(CourseActions(c, s, fates, a, sends), a)
    decreases sends
  {
    hide Attempt, Served;
    if sends > 0 && s.pc.Sending? {
      var fate := fates(Exchange(c, s.pc.phase), s.pc.attempt);
      CourseIsAnsweredBy(c, Attempt(c, s, fate, a), fates, a, sends - 1);
    }
  }

  lemma RequestLeavesServer(c: Config, s: State)
    requires ValidConfig(c) && PcFits(c, s.pc) && s.pc.Sending?
    ensures var sent := SteadyStep(c, s, ClientSends);
            && PcFits(c, sent.pc)
            && (Steady(c, s.disk) ==> sent == Step(c, s, ClientSends))
  {
    StepFits(c, s, ClientSends);
    hide Steady;
  }

  lemma ArrivalIsTaken(c: Config, s: State)
    requires ValidConfig(c) && PcFits(c, s.pc) && s.pc.Sending? && Steady(c, s.disk)
    ensures var sent := SteadyStep(c, s, ClientSends);
            PcFits(c, sent.pc)
            && var taken := SteadyStep(c, sent, ServerGets(Frame(c.me, RequestOf(c, s.pc.phase))));
               taken.server == Taken(c, s) && taken.disk == s.disk && PcFits(c, taken.pc)
  {
    hide Steady, Handle, RequestOf, AfterSend;
    StepFits(c, s, ClientSends);
    StepFits(c, SteadyStep(c, s, ClientSends), ServerGets(Frame(c.me, RequestOf(c, s.pc.phase))));
  }

  lemma {:induction false} AttemptIsRun(c: Config, s: State, past: seq<Action>, now: State, fate: Fate, a: Answers)
    requires ValidConfig(c) && PcFits(c, s.pc) && now == Run(c, s, past) && now.pc.Sending? && Steady(c, now.disk)
    ensures Run(c, s, past + AttemptActions(c, now, fate, a)) == Attempt(c, now, fate, a)
  {
    hide Idle, Handle, SteadyStep, Run, Steady;
    ArrivalIsTaken(c, now);
    var acts := AttemptActions(c, now, fate, a);
    RunExtends(c, s, past, acts[0]);
    RunExtends(c, s, past + [acts[0]], acts[1]);
    if fate == RequestLost {
      assert past + acts == past + [acts[0]] + [acts[1]];
    } else {
      RunExtends(c, s, past + [acts[0]] + [acts[1]], acts[2]);
      RunExtends(c, s, past + [acts[0]] + [acts[1]] + [acts[2]], acts[3]);
      assert past + acts == past + [acts[0]] + [acts[1]] + [acts[2]] + [acts[3]];
    }
  }

  lemma AttemptStaysSteady(c: Config, s: State, fate: Fate, a: Answers)
    requires ValidConfig(c) && PcFits(c, s.pc) && s.pc.Sending? && Steady(c, s.disk)
    ensures Steady(c, Attempt(c, s, fate, a).disk)
  {
    hide Idle, Handle, Step, Steady;
  }

  lemma {:induction false} CourseIsRun(c: Config, s: State, past: seq<Action>, now: State, fates: Fates, a: Answers, sends: nat)
    requires ValidConfig(c) && PcFits(c, s.pc) && now == Run(c, s, past) && Steady(c, now.disk)
    ensures Run(c, s, past + CourseActions(c, now, fates, a, sends)) == Course(c, now, fates, a, sends)
    decreases sends
  {
    hide Attempt, Run, Steady, AttemptActions;
    var acts := CourseActions(c, now, fates, a, sends);
    if sends > 0 && now.pc.Sending? {
      var fate := fates(Exchange(c, now.pc.phase), now.pc.attempt);
      var first := AttemptActions(c, now, fate, a);
      AttemptIsRun(c, s, past, now, fate, a);
      AttemptStaysSteady(c, now, fate, a);
      CourseIsRun(c, s, past + first, Attempt(c, now, fate, a), fates, a, sends - 1);
      assert past + acts == past + first + acts[|first|..];
    } else {
      assert past + acts == past;
    }
  }

  // ---- It is what the client makes of that script -----------------------------------

  lemma SendingGoesOn(c: Config, s: State)
    requires ValidConfig(c) && PcFits(c, s.pc) && s.pc.Sending? && s.pc.phase != DirEnding
    ensures !SteadyStep(c, s, ClientSends).pc.Done?
  {
    hide Steady, RequestOf;
  }

  lemma ElsewhereKeepsPc(c: Config, s: State, act: Action)
    requires ValidConfig(c) && PcFits(c, s.pc) && Elsewhere(act)
    ensures SteadyStep(c, s, act).pc == s.pc
  {
    hide Steady, Handle, Idle;
  }

  lemma ImpossibleIsNothing(c: Config, s: State, act: Action)
    requires ValidConfig(c) && PcFits(c, s.pc) && (act.ClientTimesOut? || act.ClientGets?) && !Possible(s, act)
    ensures SteadyStep(c, s, act) == s
  {
    hide Steady, Judge;
  }

  // One step of the client's play, possible or not.
  lemma {:induction false} PlaysOn(c: Config, s: State, act: Action, rest: seq<Action>)
    requires ValidConfig(c) && PcFits(c, s.pc) && Steady(c, s.disk) && !s.pc.Done? && !act.ClientAborts?
    requires act.ClientSends? ==> s.pc.Sending?
    ensures var t := SteadyStep(c, s, act);
            && PcFits(c, t.pc) && Steady(c, t.disk)
            && Play(c, s, [act] + rest) == Play(c, t, rest)
  {
    PlayStep(c, s, act, rest);
    if !Possible(s, act) {
      ImpossibleIsNothing(c, s, act);
    }
    hide SteadyStep, Steady, Play;
  }

  lemma {:induction false} LostAttemptPlays(c: Config, s: State, a: Answers, rest: seq<Action>)
    requires ValidConfig(c) && PcFits(c, s.pc) && s.pc.Sending? && Steady(c, s.disk) && s.pc.phase != DirEnding
    ensures PcFits(c, Attempt(c, s, RequestLost, a).pc) && Steady(c, Attempt(c, s, RequestLost, a).disk)
    ensures Play(c, s, [ClientSends, ClientTimesOut] + rest) == Play(c, Attempt(c, s, RequestLost, a), rest)
  {
    SendingGoesOn(c, s);
    hide Idle, Handle, SteadyStep, Steady, Play;
    assert [ClientSends, ClientTimesOut] + rest == [ClientSends] + ([ClientTimesOut] + rest);
    PlaysOn(c, s, ClientSends, [ClientTimesOut] + rest);
    PlaysOn(c, SteadyStep(c, s, ClientSends), ClientTimesOut, rest);
  }

  lemma {:induction false} AttemptPlays(c: Config, s: State, fate: Fate, a: Answers, rest: seq<Action>)
    requires ValidConfig(c) && PcFits(c, s.pc) && s.pc.Sending? && Steady(c, s.disk) && s.pc.phase != DirEnding
    ensures var t := Attempt(c, s, fate, a);
            && Steady(c, t.disk)
            && Play(c, s, AttemptActions(c, s, fate, a) + rest) == Play(c, t, rest)
  {
    var acts := AttemptActions(c, s, fate, a);
    if fate == RequestLost {
      hide Idle, Handle, SteadyStep, Steady, Play, Attempt;
      LostAttemptPlays(c, s, a, rest);
    } else {
      ArrivalIsTaken(c, s);
      SendingGoesOn(c, s);
      hide Idle, Handle, SteadyStep, Steady, Play, RequestOf;
      var rest2 := [acts[2]] + ([acts[3]] + rest);
      assert acts + rest == [acts[0]] + ([acts[1]] + rest2);
      PlaysOn(c, s, acts[0], [acts[1]] + rest2);
      var s1 := SteadyStep(c, s, acts[0]);
      PlaysOn(c, s1, acts[1], rest2);
      ElsewhereKeepsPc(c, s1, acts[1]);
      var s2 := SteadyStep(c, s1, acts[1]);
      PlaysOn(c, s2, acts[2], [acts[3]] + rest);
      ElsewhereKeepsPc(c, s2, acts[2]);
      PlaysOn(c, SteadyStep(c, s2, acts[2]), acts[3], rest);
    }
  }

  // END of a listing is not answered: the command is over once it is sent.
  lemma {:induction false} DirEndPlays(c: Config, s: State, fate: Fate, a: Answers, rest: seq<Action>)
    requires ValidConfig(c) && PcFits(c, s.pc) && s.pc.Sending? && Steady(c, s.disk) && s.pc.phase == DirEnding
    ensures var t, u := Play(c, s, AttemptActions(c, s, fate, a) + rest), Attempt(c, s, fate, a);
            t.pc == u.pc == Done(0) && t.local == u.local && t.listed == u.listed
  {
    var acts := AttemptActions(c, s, fate, a);
    assert acts + rest == [acts[0]] + (acts[1..] + rest);
    RequestLeavesServer(c, s);
    EndAttemptIsDone(c, s, fate, a);
    PlayStep(c, s, acts[0], acts[1..] + rest);
    PlayDone(c, SteadyStep(c, s, ClientSends), acts[1..] + rest);
    hide Idle, Handle, Steady, Play, RequestOf, Attempt;
  }

  lemma EndAttemptIsDone(c: Config, s: State, fate: Fate, a: Answers)
    requires ValidConfig(c) && PcFits(c, s.pc) && s.pc.Sending? && Steady(c, s.disk) && s.pc.phase == DirEnding
    ensures var u := Attempt(c, s, fate, a); u.pc == Done(0) && u.local == s.local && u.listed == s.listed
  {
    hide Idle, Handle, SlackAfter, ClosingOf, Steady, RequestOf, Retried, Judge;
  }

  // A client that is left to the script of a course ends where the course does.
  lemma {:induction false} CoursePlays(c: Config, s: State, fates: Fates, a: Answers, sends: nat)
    requires ValidConfig(c) && PcFits(c, s.pc) && Steady(c, s.disk) && Course(c, s, fates, a, sends).pc.Done?
    ensures var t, u := Play(c, s, CourseActions(c, s, fates, a, sends)), Course(c, s, fates, a, sends);
            t.pc == u.pc && t.local == u.local && t.listed == u.listed && (!c.job.DirJob? ==> t == u)
    decreases sends
  {
    hide Attempt, Steady, AttemptActions;
    if s.pc.Done? {
      PlayDone(c, s, CourseActions(c, s, fates, a, sends));
    } else {
      var fate := fates(Exchange(c, s.pc.phase), s.pc.attempt);
      var t := Attempt(c, s, fate, a);
      var rest := CourseActions(c, t, fates, a, sends - 1);
      if s.pc.phase == DirEnding {
        DirEndPlays(c, s, fate, a, rest);
        EndAttemptIsDone(c, s, fate, a);
        assert Course(c, t, fates, a, sends - 1) == t;
      } else {
        AttemptPlays(c, s, fate, a, rest);
        CoursePlays(c, t, fates, a, sends - 1);
      }
    }
  }

  // The server has run what was pending when the client starts.
  function CaughtUp(c: Config, s: State, h: nat): (t: State)
    requires ValidConfig(c) && PcFits(c, s.pc)
    ensures PcFits(c, t.pc)
  {
    StepFits(c, s, ServerIdles(Willing(h)));
    SteadyStep(c, s, ServerIdles(Willing(h)))
  }

  lemma CatchingUpIsRun(c: Config, s: State, h: nat)
    requires ValidConfig(c) && Initial(c, s)
    ensures PcFits(c, s.pc) && CaughtUp(c, s, h).pc == s.pc
    ensures CaughtUp(c, s, h) == Run(c, s, [ServerIdles(Willing(h))])
  {
    hide Idle;
    InitialFits(c, s);
    RunNothing(c, s);
    RunExtends(c, s, [], ServerIdles(Willing(h)));
    assert [] + [ServerIdles(Willing(h))] == [ServerIdles(Willing(h))];
  }

  // The script of everything around the client: the server catches up, and then
  // the attempts have these fates.
  function NetworkSide(c: Config, s: State, fates: Fates, h: nat, sends: nat): seq<Action>
    requires ValidConfig(c) && PcFits(c, s.pc)
  {
    [ServerIdles(Willing(h))] + CourseActions(c, CaughtUp(c, s, h), fates, Willing(h), sends)
  }

  // Under it the system makes this run, and the client this play.
  lemma {:induction false} ScriptFollowsCourse(c: Config, s: State, fates: Fates, h: nat, sends: nat)
    requires ValidConfig(c) && Initial(c, s) && PcFits(c, s.pc)
    requires Course(c, CaughtUp(c, s, h), fates, Willing(h), sends).pc.Done?
    ensures var todo, u := NetworkSide(c, s, fates, h, sends), Course(c, CaughtUp(c, s, h), fates, Willing(h), sends);
            && Run(c, s, todo) == u && AnsweredBy(todo, Willing(h))
            && var t := Play(c, s, todo);
               t.pc == u.pc && t.local == u.local && t.listed == u.listed && (!c.job.DirJob? ==> t == u)
  {
    CatchingUpIsRun(c, s, h);
    hide Attempt, Run, AttemptActions, Course, CourseActions;
    var first, s1 := ServerIdles(Willing(h)), CaughtUp(c, s, h);
    StepStaysSteady(c, s, first);
    hide Steady;
    var rest := CourseActions(c, s1, fates, Willing(h), sends);
    CourseIsRun(c, s, [first], s1, fates, Willing(h), sends);
    CourseIsAnsweredBy(c, s1, fates, Willing(h), sends);
    PlayStep(c, s, first, rest);
    CoursePlays(c, s1, fates, Willing(h), sends);
  }
}
