/**
 The two models of the ACP client have the same ends of a request: every way the caller's model lets
 one end is an end some run of the protocol gives a caller, and every end in the protocol is one of
 them, with the same fault.
 */
module AcpEndings {
  import opened Options
  import opened AcpRegions
  import opened AcpProtocol
  import opened AcpGuarantees
  import AcpPrompt

  function EndingOf(outcome: Outcome): AcpPrompt.Ending {
    match outcome
    case Got(ProcessGone) => AcpPrompt.Crash
    case Got(FromPeer(_, _, Success(result))) => AcpPrompt.Reply(result)
    case Got(FromPeer(_, _, Failure(code))) => AcpPrompt.ErrorReply(code)
    case Cancelled => AcpPrompt.Timeout
    case WriteFault => AcpPrompt.WriteFails
  }

  /** What `request` returns, which looks at the body of a message only. */
  function FaultOf(outcome: Outcome): Option<AcpPrompt.Fault> {
    match outcome
    case Cancelled => Some(AcpPrompt.ContextEnded)
    case WriteFault => Some(AcpPrompt.Write)
    case Got(m) =>
      match m.Body()
      case Success(_) => None
      case Failure(code) => Some(if code == PROCESS_GONE_CODE then AcpPrompt.Transport else AcpPrompt.Rpc(code))
  }

  /** An end in the protocol, as the caller's model sees it; a reply is that of the request's own process. */
  lemma {:induction false} EveryEndIsAnEnding(s: State, c: nat)
    requires Reachable(s) && c in s.callers && s.callers[c].Done?
    ensures var outcome := s.callers[c].outcome;
            var ending := EndingOf(outcome);
            && !ending.NoProcess? && AcpPrompt.FaultOf(ending) == FaultOf(outcome)
            && (ending.Reply? || ending.ErrorReply? ==>
                  && outcome.message.FromPeer? && outcome.message.id == c && outcome.message in s.heard
                  && c in s.sentTo && outcome.message.gen == s.sentTo[c])
  {
    var outcome := s.callers[c].outcome;
    if outcome.Got? && outcome.message.FromPeer? {
      CorrelationAcrossRestarts(s, c, outcome.message);
    }
  }

  lemma Begun(written: bool) returns (s: State)
    ensures Reachable(s) && s.shared.proc == Some(0) && s.spawned == 1 && s.held == map[] && s.shared.nextID == 1
    ensures 1 in s.callers && s.callers[1] == if written then Waiting else Done(WriteFault)
    ensures written ==> 1 in s.sentTo && s.sentTo[1] == 0 && Filed(s, 1)
    ensures !written ==> !s.shared.connected
  {
    assert Path(Init(), [], Init());
    PathThenStep(Init(), Spawn);
    var started := Apply(Init(), Spawn);
    PathThenStep(started, Begin(written));
    s := Apply(started, Begin(written));
  }

  lemma Answered(payload: Payload) returns (s: State)
    ensures Reachable(s) && 1 in s.callers && s.callers[1] == Done(Got(FromPeer(0, 1, payload)))
  {
    var begun := Begun(true);
    var read := Read(0, 1, payload);
    PathThenStep(begun, read);
    ReplyTakenIff(begun, 0, 1, payload);
    var heard := Apply(begun, read);
    SendNeverBlocks(heard, 0);
    PathThenStep(heard, Deliver(0));
    var sent := Apply(heard, Deliver(0));
    PathThenStep(sent, Receive(1));
    s := Apply(sent, Receive(1));
  }

  lemma Crashed() returns (s: State)
    ensures Reachable(s) && 1 in s.callers && s.callers[1] == Done(Got(ProcessGone)) && s.shared.proc.None?
  {
    var begun := Begun(true);
    PathThenStep(begun, Exit(0));
    CrashDrain(begun, 0);
    var gone := Apply(begun, Exit(0));
    PathThenStep(gone, Receive(1));
    s := Apply(gone, Receive(1));
  }

  lemma TimedOut() returns (s: State)
    ensures Reachable(s) && 1 in s.callers && s.callers[1] == Done(Cancelled)
  {
    var begun := Begun(true);
    PathThenStep(begun, ContextDone(1));
    var leaving := Apply(begun, ContextDone(1));
    PathThenStep(leaving, Abandon(1));
    s := Apply(leaving, Abandon(1));
  }

  /** A request to no process changes nothing; any other ending is reached by a caller of the protocol. */
  lemma EveryEndingIsReached(ending: AcpPrompt.Ending) returns (s: State)
    ensures Reachable(s)
    ensures ending.NoProcess? ==> s.shared.proc.None? && forall written :: s.shared.Request(written) == s.shared
    ensures !ending.NoProcess? ==> 1 in s.callers && s.callers[1].Done? && EndingOf(s.callers[1].outcome) == ending
    ensures ending.Crash? ==> s.shared.proc.None?
    ensures ending.WriteFails? ==> !s.shared.connected
  {
    match ending
    case NoProcess =>
      assert Path(Init(), [], Init());
      s := Init();
    case Reply(result) => s := Answered(Success(result));
    case ErrorReply(code) => s := Answered(Failure(code));
    case Crash => s := Crashed();
    case Timeout => s := TimedOut();
    case WriteFails => s := Begun(false);
  }
}
