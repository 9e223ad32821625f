/** What follows a failed round: the end of the call, a new connection, or the old one. */
module Endings {
  import opened Protocol
  import Retries

  /** The event ends a round in an error. */
  predicate EndsRound(cfg: Config, s: State, e: Event) {
    Enabled(cfg, s, e) && (e.WriteFail? || e.SelectFail? || e.Read? || e.ReadFail?)
  }

  /** The code `apn_send` then works with. */
  function RoundError(cfg: Config, s: State, e: Event): Error
    requires EndsRound(cfg, s, e)
  {
    match e
    case WriteFail(_, error) => error
    case SelectFail(code) => Sys(code)
    case Read => ConvertAppleError(Current(s).gate.status)
    case ReadFail(error) => error
    case _ => assert false; Unknown
  }

  // ----- in numbers and names

  /** Which of the client's calls can fail, and how: a write or a read with one of four errors each,
      `select` with any system error but that of an interruption, code 4. */
  lemma FaultsPossible(cfg: Config, s: State, chunks: seq<nat>, error: Error, code: int)
    requires s.conns != [] && s.phase.Sending?
    ensures Enabled(cfg, s, WriteFail(chunks, error)) <==>
            s.phase.i < cfg.count &&
            (error == NetworkUnreachable || error == NetworkTimedOut || error == SslWriteFailed || error == ConnectionClosed)
    ensures Enabled(cfg, s, ReadFail(error)) <==>
            error == NetworkUnreachable || error == NetworkTimedOut || error == SslReadFailed || error == ConnectionClosed
    ensures Enabled(cfg, s, SelectFail(code)) <==> code != 4
  {
  }

  /** A peer that is gone, a silent one, or a closed connection. */
  predicate PeerLost(error: Error) {
    error == ConnectionClosed || error == NetworkTimedOut || error == NetworkUnreachable
  }

  /** With the option set and tokens left, a round that ends in an error opens a new connection if and
      only if the write or the read found the peer lost, or the packet has status 5, 8 or 10, or a new
      connection was opened before.  Otherwise the next round runs on the old one. */
  lemma ReconnectsExactly(cfg: Config, s: State, e: Event)
    requires cfg.reconnect && EndsRound(cfg, s, e) && Step(cfg, s, e).start < cfg.count
    ensures var s' := Step(cfg, s, e);
            && (s'.phase.Reconnecting? <==>
                || s.autoReconnect
                || (e.WriteFail? && PeerLost(e.error))
                || (e.ReadFail? && PeerLost(e.error))
                || (e.Read? && Current(s).gate.status in {5, 8, 10}))
            && (!s'.phase.Reconnecting? ==> s'.phase == Sending(s'.start) && |s'.conns| == |s.conns|)
  {
  }

  /** Where the batch goes on after a failed round, what is recorded, and how the call ends when
      nothing is left to send. */
  lemma RoundOutcome(cfg: Config, s: State, e: Event)
    requires EndsRound(cfg, s, e)
    ensures var s', gate := Step(cfg, s, e), Current(s).gate;
            && s'.start == (if e.ReadFail? then s.phase.i
                            else if e.Read? && gate.status == 8 then gate.id + 1
                            else if e.Read? && gate.status == 5 then 1
                            else 0)
            && s'.invalid == s.invalid + (if e.Read? && gate.status == 8 then [gate.id]
                                          else if e.Read? && gate.status == 5 then [0]
                                          else [])
            && s'.log == s.log
    ensures var s', gate := Step(cfg, s, e), Current(s).gate;
            s'.start >= cfg.count ==>
              s'.phase == if e.Read? && gate.status in {5, 8} then Done(Success)
                          else Done(Failure(if e.ReadFail? then e.error
                                            else if e.WriteFail? then e.error
                                            else if e.SelectFail? then Sys(e.code)
                                            else if gate.status == 1 then ProcessingError
                                            else if gate.status == 7 then InvalidPayloadSize
                                            else if gate.status == 10 then ServiceShutdown
                                            else Unknown))
  {
  }

  // ----- the flag

  /** A round with tokens left ended in an error that is retried. */
  predicate RetriedAt(cfg: Config, s: State, e: Event) {
    && EndsRound(cfg, s, e)
    && cfg.reconnect && Retryable(RoundError(cfg, s, e))
    && Step(cfg, s, e).start < cfg.count
  }

  /** At some moment of the run a round was retried. */
  ghost predicate RetriedBefore(cfg: Config, events: seq<Event>) {
    exists k | 0 <= k < |events| :: RetriedAt(cfg, Run(cfg, Start(), events[..k]), events[k])
  }

  lemma FaultEnds(cfg: Config, s: State, e: Event)
    requires cfg.count > 0 && EndsRound(cfg, s, e) && s.phase.i <= cfg.count
    requires !RoundError(cfg, s, e).TokenInvalid?
    ensures Step(cfg, s, e).phase.Done? <==> e.ReadFail? && s.phase.i == cfg.count
    ensures Step(cfg, s, e).phase.Done? ==> Step(cfg, s, e).phase == Done(Failure(RoundError(cfg, s, e)))
  {
  }

  /** A round that ends in anything but "token invalid" ends the call if and only if it is a read
      failure in the final wait; with tokens left no error does. */
  lemma FaultEndsSend(cfg: Config, events: seq<Event>, e: Event)
    requires cfg.count > 0 && EndsRound(cfg, Run(cfg, Start(), events), e)
    requires !RoundError(cfg, Run(cfg, Start(), events), e).TokenInvalid?
    ensures var s := Run(cfg, Start(), events);
            && (Step(cfg, s, e).phase.Done? <==> e.ReadFail? && s.phase.i == cfg.count)
            && (Step(cfg, s, e).phase.Done? ==> Step(cfg, s, e).phase == Done(Failure(RoundError(cfg, s, e))))
  {
    hide Run, Step;
    Retries.StepsWithinAllowance(cfg, events);
    FaultEnds(cfg, Run(cfg, Start(), events), e);
  }

  lemma AutoStep(cfg: Config, s: State, e: Event)
    ensures Step(cfg, s, e).autoReconnect <==> s.autoReconnect || RetriedAt(cfg, s, e)
  {
  }

  lemma BeforeSnoc(cfg: Config, init: seq<Event>, e: Event)
    ensures RetriedBefore(cfg, init + [e]) <==>
            RetriedBefore(cfg, init) || RetriedAt(cfg, Run(cfg, Start(), init), e)
  {
    hide Run, Step, RetriedAt;
    var events := init + [e];
    assert forall k | 0 <= k <= |init| :: events[..k] == init[..k];
    assert init[..|init|] == init;
    if RetriedBefore(cfg, init) {
      var k :| 0 <= k < |init| && RetriedAt(cfg, Run(cfg, Start(), init[..k]), init[k]);
      assert RetriedAt(cfg, Run(cfg, Start(), events[..k]), events[k]);
    }
    if RetriedAt(cfg, Run(cfg, Start(), init), e) {
      assert RetriedAt(cfg, Run(cfg, Start(), events[..|init|]), events[|init|]);
    }
    if RetriedBefore(cfg, events) {
      var k :| 0 <= k < |events| && RetriedAt(cfg, Run(cfg, Start(), events[..k]), events[k]);
      assert k < |init| ==> RetriedAt(cfg, Run(cfg, Start(), init[..k]), init[k]);
    }
  }

  lemma {:induction false} AutoExactly(cfg: Config, events: seq<Event>)
    ensures Run(cfg, Start(), events).autoReconnect <==> RetriedBefore(cfg, events)
  {
    if events != [] {
      hide Step, RetriedAt, RetriedBefore;
      var n := |events| - 1;
      var init := events[..n];
      assert events == init + [events[n]];
      AutoExactly(cfg, init);
      BeforeSnoc(cfg, init, events[n]);
      AutoStep(cfg, Run(cfg, Start(), init), events[n]);
    }
  }

  lemma NotRetried(cfg: Config, s: State, e: Event)
    requires EndsRound(cfg, s, e) && !(cfg.reconnect && Retryable(RoundError(cfg, s, e)))
    ensures var s' := Step(cfg, s, e);
            s'.phase.Done? || s'.phase == if s.autoReconnect then Reconnecting else Sending(s'.start)
    ensures |Step(cfg, s, e).conns| == |s.conns|
  {
  }

  /** An error that is not retried opens a new connection all the same if and only if an earlier round
      with tokens left was retried; otherwise the next round runs on the old connection. */
  lemma NotRetriedReconnects(cfg: Config, events: seq<Event>, e: Event)
    requires var s := Run(cfg, Start(), events);
             EndsRound(cfg, s, e) && !(cfg.reconnect && Retryable(RoundError(cfg, s, e))) && !Step(cfg, s, e).phase.Done?
    ensures var s' := Step(cfg, Run(cfg, Start(), events), e);
            && (s'.phase.Reconnecting? <==> RetriedBefore(cfg, events))
            && (!RetriedBefore(cfg, events) ==> s'.phase == Sending(s'.start))
            && |s'.conns| == |Run(cfg, Start(), events).conns|
  {
    hide Run, Step, RetriedBefore;
    AutoExactly(cfg, events);
    NotRetried(cfg, Run(cfg, Start(), events), e);
  }

  // ----- the option switched off

  ghost predicate OnlyConnection(s: State) {
    && |s.conns| == 1 && !s.autoReconnect && !s.phase.Reconnecting?
    && Shape(s.conns[0]) && s.log == s.conns[0].wire[..s.conns[0].taken]
  }

  lemma OnlyStep(cfg: Config, s: State, e: Event)
    requires !cfg.reconnect && OnlyConnection(s)
    ensures OnlyConnection(Step(cfg, s, e))
    ensures s.conns[0].gate.Stopped? ==>
              Step(cfg, s, e).conns[0].gate == s.conns[0].gate && Step(cfg, s, e).log == s.log
  {
    var s' := Step(cfg, s, e);
    if e.Judge? && e.accept && Enabled(cfg, s, e) {
      var c := s.conns[0];
      assert c.wire[..c.taken + 1] == c.wire[..c.taken] + [c.wire[c.taken]];
    } else if e.Write? && Enabled(cfg, s, e) {
      assert s'.conns[0].wire[..s.conns[0].taken] == s.conns[0].wire[..s.conns[0].taken];
    }
  }

  lemma {:induction false} OnlyRun(cfg: Config, events: seq<Event>)
    requires !cfg.reconnect
    ensures OnlyConnection(Run(cfg, Start(), events))
  {
    if events == [] {
      assert OnlyConnection(Start());
    } else {
      hide Step, OnlyConnection;
      OnlyRun(cfg, events[..|events| - 1]);
      OnlyStep(cfg, Run(cfg, Start(), events[..|events| - 1]), events[|events| - 1]);
    }
  }

  /** Without the reconnect option there is one connection only, and once the gateway has stopped
      reading it, nothing more is ever accepted. */
  lemma {:induction false} OptionOff(cfg: Config, events: seq<Event>, k: nat)
    requires !cfg.reconnect && k <= |events|
    ensures var s, end := Run(cfg, Start(), events[..k]), Run(cfg, Start(), events);
            && |end.conns| == |s.conns| == 1
            && (s.conns[0].gate.Stopped? ==> end.conns[0].gate == s.conns[0].gate && end.log == s.log)
    decreases |events|
  {
    hide Step;
    OnlyRun(cfg, events[..k]);
    if k == |events| {
      assert events[..k] == events;
    } else {
      var n := |events| - 1;
      OnlyRun(cfg, events[..n]);
      OptionOff(cfg, events[..n], k);
      assert events[..n][..k] == events[..k];
      OnlyStep(cfg, Run(cfg, Start(), events[..n]), events[n]);
    }
  }
}
