/** What becomes of a client when everything around it is given: the order in
    which the network, the server and DOS act and the client gets to run. */
module Script {
  import opened Protocol
  import opened Dos
  import opened FileServerSpec
  import opened System

  predicate Elsewhere(act: Action) {
    act.ServerGets? || act.ServerIdles? || act.DosElsewhere?
  }

  // How far the client can still go when nothing else happens.
  function Rank(c: Config, pc: Pc): nat {
    match pc
    case Done(_) => 0
    case Sending(p, attempt) =>
      if p.DirBeginning? then 2 * Retries(c) + 2
      else 2 * (if attempt < Retries(c) then Retries(c) - attempt else 1) + 1
    case Waiting(p, attempt) =>
      if p.DirBeginning? then 2 * Retries(c) + 3
      else 2 * (if attempt < Retries(c) then Retries(c) - attempt else 1)
  }

  lemma StepStaysSteady(c: Config, s: State, act: Action)
    requires ValidConfig(c) && PcFits(c, s.pc) && Steady(c, s.disk)
    ensures PcFits(c, SteadyStep(c, s, act).pc) && Steady(c, SteadyStep(c, s, act).disk)
  {
    StepFits(c, s, act);
    hide Step, Steady;
  }

  lemma LeftAloneGoesOn(c: Config, s: State, act: Action)
    requires ValidConfig(c) && PcFits(c, s.pc) && Steady(c, s.disk) && !s.pc.Done?
    requires act == if s.pc.Sending? then ClientSends else ClientTimesOut
    ensures Rank(c, SteadyStep(c, s, act).pc) < Rank(c, s.pc)
  {
    hide Steady, RequestOf;
    assert Step(c, s, act).disk == s.disk;
  }

  // The end of the client's command under a script. Sending waits for its turn
  // in the script or for a local failure there, and a wait for an answer ends
  // with the first message or timeout in it; what is not possible is passed over.
  // Where the script is over, the client sends, and gets no answer.
  function Play(c: Config, s: State, todo: seq<Action>): State
    requires ValidConfig(c) && PcFits(c, s.pc) && Steady(c, s.disk)
    decreases |todo|, Rank(c, s.pc)
  {
    if s.pc.Done? then s
    else if todo == [] then
      var act := if s.pc.Sending? then ClientSends else ClientTimesOut;
      StepStaysSteady(c, s, act);
      LeftAloneGoesOn(c, s, act);
      Play(c, SteadyStep(c, s, act), todo)
    else if Possible(s, todo[0]) then
      StepStaysSteady(c, s, todo[0]);
      Play(c, SteadyStep(c, s, todo[0]), todo[1..])
    else Play(c, s, todo[1..])
  }

  predicate Possible(s: State, act: Action) {
    match act
    case ClientSends => s.pc.Sending?
    case ClientAborts => s.pc.Sending? && !s.pc.phase.DirEnding?
    case ClientTimesOut => s.pc.Waiting?
    case ClientGets(m) => s.pc.Waiting? && m in s.toClient
    case _ => true
  }

  lemma PlayDone(c: Config, s: State, todo: seq<Action>)
    requires ValidConfig(c) && s.pc.Done? && Steady(c, s.disk)
    ensures Play(c, s, todo) == s
  {
  }

  // A local failure where the client is about to send ends the command, except
  // that END of a listing is sent without looking at the result.
  lemma LocalFailureEnds(c: Config, s: State, rest: seq<Action>)
    requires ValidConfig(c) && PcFits(c, s.pc) && Steady(c, s.disk) && s.pc.Sending?
    ensures Play(c, s, [ClientAborts] + rest) ==
            if s.pc.phase.DirEnding? then Play(c, s, rest) else s.(pc := Done(-1))
  {
    PlayStep(c, s, ClientAborts, rest);
    PlayDone(c, s.(pc := Done(-1)), rest);
  }

  lemma PlayStep(c: Config, s: State, act: Action, rest: seq<Action>)
    requires ValidConfig(c) && PcFits(c, s.pc) && Steady(c, s.disk) && !s.pc.Done?
    ensures PcFits(c, SteadyStep(c, s, act).pc) && Steady(c, SteadyStep(c, s, act).disk)
    ensures Play(c, s, [act] + rest) == if Possible(s, act) then Play(c, SteadyStep(c, s, act), rest) else Play(c, s, rest)
  {
    StepStaysSteady(c, s, act);
    hide SteadyStep, Steady;
    assert ([act] + rest)[1..] == rest;
  }
}
