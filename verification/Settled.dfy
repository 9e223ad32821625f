/** Nothing below the resume index is ever lost: every index below `start_index`
    was accepted by the gateway, or refused by it and recorded. */
module Settled {
  import opened Protocol

  ghost predicate Refused(s: State, j: nat) {
    exists c | 0 <= c < |s.conns| :: s.conns[c].gate == Stopped(INVALID_TOKEN, j)
  }

  ghost predicate IsSettled(s: State, j: nat) {
    j in s.log || (j in s.invalid && Refused(s, j))
  }

  ghost predicate SettledBelow(s: State, n: nat) {
    forall j: nat | j < n :: IsSettled(s, j)
  }

  ghost predicate PrefixSettled(s: State) {
    SettledBelow(s, s.start)
  }

  // ----- the invariant, one part a predicate

  ghost predicate ConnOk(cfg: Config, log: seq<nat>, c: Conn) {
    && Shape(c)
    && (forall k | 0 <= k < |c.wire| :: c.wire[k] < cfg.count)
    && (forall k | 0 <= k < c.taken :: c.wire[k] in log)
  }

  ghost predicate ConnsOk(cfg: Config, s: State) {
    s.conns != [] && forall c | 0 <= c < |s.conns| :: ConnOk(cfg, s.log, s.conns[c])
  }

  ghost predicate ResumeOk(cfg: Config, s: State) {
    s.start <= cfg.count && PrefixSettled(s) && (s.phase.Reconnecting? ==> s.start < cfg.count)
  }

  /** Whatever precedes a frame of the connection is settled or ahead of it on the wire. */
  ghost predicate Covered(s: State, c: Conn) {
    forall p, j: nat | 0 <= p < |c.wire| && j < c.wire[p] :: IsSettled(s, j) || j in c.wire[..p]
  }

  ghost predicate SettledOrSent(s: State, n: nat)
    requires s.conns != []
  {
    forall j: nat | j < n :: IsSettled(s, j) || j in Current(s).wire
  }

  ghost predicate WireOk(cfg: Config, s: State)
    requires s.conns != []
  {
    && Covered(s, Current(s))
    && (s.phase.Sending? ==> s.start <= s.phase.i <= cfg.count && SettledOrSent(s, s.phase.i))
    && (s.phase == Done(Success) ==> SettledOrSent(s, cfg.count))
  }

  ghost predicate RecordOk(s: State) {
    s.invalid != [] ==> SettledBelow(s, s.invalid[|s.invalid| - 1] + 1)
  }

  ghost predicate Inv(cfg: Config, s: State) {
    ConnsOk(cfg, s) && ResumeOk(cfg, s) && WireOk(cfg, s) && RecordOk(s)
  }

  // ----- what may go wrong

  /** All the connection carried below index `n`, but the gateway did not accept, is settled
      already.  An empty backlog is the usual case. */
  ghost predicate BacklogSettled(s: State, n: nat)
    requires s.conns != []
  {
    forall k | Current(s).taken <= k < |Current(s).wire| && Current(s).wire[k] < n :: IsSettled(s, Current(s).wire[k])
  }

  ghost predicate Drained(s: State)
    requires s.conns != []
  {
    Current(s).taken == |Current(s).wire|
  }

  /** The client reads a packet with status 5, which it takes for a verdict on token 0. */
  ghost predicate ReadsStatusFive(cfg: Config, s: State, e: Event) {
    e.Read? && Enabled(cfg, s, e) && Current(s).gate.status == INVALID_TOKEN_SIZE
  }

  /** The events under which the prefix stays safe: no read failure while an unsettled frame below
      the resume index is in flight, and no status 5 before token 0 got its verdict. */
  ghost predicate Safe(cfg: Config, s: State, e: Event) {
    && (e.ReadFail? && Enabled(cfg, s, e) ==> BacklogSettled(s, s.phase.i))
    && (ReadsStatusFive(cfg, s, e) ==> 0 in s.log || Refused(s, 0))
  }

  ghost predicate SafeRun(cfg: Config, events: seq<Event>) {
    Along(cfg, Start(), events, (s, e) => Safe(cfg, s, e))
  }

  // ----- records are never taken back

  ghost predicate Grows(s: State, s': State) {
    && (forall j | j in s.log :: j in s'.log)
    && (forall j | j in s.invalid :: j in s'.invalid)
    && |s.conns| <= |s'.conns|
    && (forall c | 0 <= c < |s.conns| && s.conns[c].gate.Stopped? :: s'.conns[c].gate == s.conns[c].gate)
  }

  lemma RefusedGrows(s: State, s': State, j: nat)
    requires Grows(s, s') && Refused(s, j)
    ensures Refused(s', j)
  {
    var c :| 0 <= c < |s.conns| && s.conns[c].gate == Stopped(INVALID_TOKEN, j);
    assert s'.conns[c].gate == Stopped(INVALID_TOKEN, j);
  }

  lemma SettledGrows(s: State, s': State)
    requires Grows(s, s')
    ensures forall j: nat | IsSettled(s, j) :: IsSettled(s', j)
    ensures forall j: nat | Refused(s, j) :: Refused(s', j)
  {
    forall j: nat | Refused(s, j) ensures Refused(s', j) { RefusedGrows(s, s', j); }
  }

  lemma StepGrows(cfg: Config, s: State, e: Event)
    ensures Grows(s, Step(cfg, s, e))
  {
  }

  /** The parts that speak of settled indices only survive whatever keeps the client's state and the
      wires. */
  lemma {:induction false} KeepsClient(cfg: Config, s: State, s': State)
    requires Inv(cfg, s) && Grows(s, s') && |s'.conns| == |s.conns|
    requires s'.start == s.start && s'.phase == s.phase && s'.invalid == s.invalid
    requires Current(s').wire == Current(s).wire
    ensures ResumeOk(cfg, s') && WireOk(cfg, s') && RecordOk(s')
  {
    SettledGrows(s, s');
    hide IsSettled, Refused, Grows, ConnsOk;
  }

  lemma {:induction false} JudgeInv(cfg: Config, s: State, c: nat, accept: bool)
    requires Inv(cfg, s) && c < |s.conns| && s.conns[c].gate.Open? && s.conns[c].taken < |s.conns[c].wire|
    ensures Inv(cfg, Judged(s, c, accept))
  {
    hide IsSettled, Refused;
    var s' := Judged(s, c, accept);
    KeepsClient(cfg, s, s');
    forall d | 0 <= d < |s'.conns| ensures ConnOk(cfg, s'.log, s'.conns[d]) {
      assert ConnOk(cfg, s.log, s.conns[d]);
    }
  }

  lemma {:induction false} HaltInv(cfg: Config, s: State, c: nat, status: int)
    requires Inv(cfg, s) && c < |s.conns| && s.conns[c].gate.Open? && status != INVALID_TOKEN
    ensures Inv(cfg, Halted(s, c, status))
  {
    hide IsSettled, Refused;
    var s' := Halted(s, c, status);
    KeepsClient(cfg, s, s');
    forall d | 0 <= d < |s'.conns| ensures ConnOk(cfg, s'.log, s'.conns[d]) {
      assert ConnOk(cfg, s.log, s.conns[d]);
    }
  }

  /** Noting a read or a failed write on the current connection changes no record. */
  lemma {:induction false} FlagsInv(cfg: Config, s: State, unread: bool, torn: bool)
    requires Inv(cfg, s)
    ensures Inv(cfg, Flagged(s, unread, torn))
  {
    hide IsSettled, Refused;
    var s' := Flagged(s, unread, torn);
    KeepsClient(cfg, s, s');
    forall d | 0 <= d < |s'.conns| ensures ConnOk(cfg, s'.log, s'.conns[d]) {
      assert ConnOk(cfg, s.log, s.conns[d]);
    }
  }

  lemma WriteConns(cfg: Config, s: State)
    requires ConnsOk(cfg, s) && s.phase.Sending? && s.phase.i < cfg.count
    ensures ConnsOk(cfg, Written(s))
  {
    var s' := Written(s);
    assert Current(s').wire == Current(s).wire + [s.phase.i];
    forall d | 0 <= d < |s'.conns| ensures ConnOk(cfg, s'.log, s'.conns[d]) {
      assert ConnOk(cfg, s.log, s.conns[d]);
    }
  }

  lemma WriteWire(cfg: Config, s: State)
    requires s.conns != [] && WireOk(cfg, s) && s.phase.Sending? && s.phase.i < cfg.count
    requires forall j: nat | IsSettled(s, j) :: IsSettled(Written(s), j)
    ensures WireOk(cfg, Written(s))
  {
    hide IsSettled;
    var s', wire := Written(s), Current(s).wire;
    var wire' := Current(s').wire;
    assert wire' == wire + [s.phase.i];
    forall p, j: nat | 0 <= p < |wire'| && j < wire'[p] ensures IsSettled(s', j) || j in wire'[..p] {
      assert wire'[..p] == wire[..p];
      assert p == |wire| ==> wire[..p] == wire;
    }
  }

  lemma {:induction false} WriteInv(cfg: Config, s: State)
    requires Inv(cfg, s) && s.phase.Sending? && s.phase.i < cfg.count
    ensures Inv(cfg, Written(s))
  {
    SettledGrows(s, Written(s));
    WriteConns(cfg, s);
    WriteWire(cfg, s);
    hide IsSettled, Refused, WireOk, ConnsOk;
  }

  /** The resume index after a failed round, and what it needs to be safe. */
  ghost predicate Resumable(cfg: Config, s: State, error: Error, index: nat) {
    && SettledBelow(s, index) && index <= cfg.count
    && (error.TokenInvalid? ==> index < cfg.count && (index in s.log || Refused(s, index)))
  }

  lemma EndRoundSettles(cfg: Config, s: State, error: Error, index: nat, reset: bool)
    requires Resumable(cfg, s, error, index)
    ensures var s' := EndRound(cfg, s, error, index, reset);
            && PrefixSettled(s') && s'.start <= cfg.count
            && (error.TokenInvalid? ==> SettledBelow(s', index + 1))
            && forall j: nat | IsSettled(s, j) :: IsSettled(s', j)
  {
    var s' := EndRound(cfg, s, error, index, reset);
    SettledGrows(s, s');
    if error.TokenInvalid? {
      assert s'.invalid[|s.invalid|] == index;
      assert Refused(s, index) ==> Refused(s', index);
      assert IsSettled(s', index);
    }
  }

  lemma EndRoundRecord(cfg: Config, s: State, error: Error, index: nat, reset: bool)
    requires Resumable(cfg, s, error, index) && RecordOk(s)
    ensures RecordOk(EndRound(cfg, s, error, index, reset))
  {
    EndRoundSettles(cfg, s, error, index, reset);
    hide IsSettled, Refused;
  }

  lemma EndRoundWire(cfg: Config, s: State, error: Error, index: nat, reset: bool)
    requires Resumable(cfg, s, error, index) && s.conns != [] && WireOk(cfg, s)
    ensures WireOk(cfg, EndRound(cfg, s, error, index, reset))
  {
    EndRoundSettles(cfg, s, error, index, reset);
    hide IsSettled, Refused;
  }

  lemma {:induction false} EndRoundInv(cfg: Config, s: State, error: Error, index: nat, reset: bool)
    requires Inv(cfg, s) && Resumable(cfg, s, error, index)
    ensures Inv(cfg, EndRound(cfg, s, error, index, reset))
  {
    EndRoundSettles(cfg, s, error, index, reset);
    EndRoundRecord(cfg, s, error, index, reset);
    EndRoundWire(cfg, s, error, index, reset);
    hide IsSettled, Refused, WireOk, RecordOk, SettledBelow;
  }

  /** A status 8 error names the first frame the gateway did not accept: all before it is settled. */
  lemma {:induction false} RefusalSettles(cfg: Config, s: State)
    requires Inv(cfg, s)
    requires Current(s).gate.Stopped? && Current(s).gate.status == INVALID_TOKEN
    ensures SettledBelow(s, Current(s).gate.id) && Refused(s, Current(s).gate.id)
    ensures Current(s).gate.id < cfg.count
  {
    var cur := Current(s);
    assert ConnOk(cfg, s.log, cur);
    assert s.conns[|s.conns| - 1].gate == Stopped(INVALID_TOKEN, cur.gate.id);
    forall j: nat | j < cur.gate.id ensures IsSettled(s, j) {
      assert j < cur.wire[cur.taken];
    }
  }

  /** What is settled or sent is settled, once the backlog is. */
  lemma {:induction false} BacklogSettles(cfg: Config, s: State, n: nat)
    requires ConnsOk(cfg, s) && SettledOrSent(s, n)
    ensures SettledBelow(s, n) <==> BacklogSettled(s, n)
  {
    var cur := Current(s);
    assert ConnOk(cfg, s.log, cur);
    if BacklogSettled(s, n) {
      forall j: nat | j < n ensures IsSettled(s, j) {
        assert j in cur.wire || IsSettled(s, j);
      }
    }
  }

  lemma {:induction false} ReadInv(cfg: Config, s: State)
    requires cfg.count > 0 && Inv(cfg, s) && s.phase.Sending? && Current(s).gate.Stopped?
    requires Current(s).gate.status == INVALID_TOKEN_SIZE ==> 0 in s.log || Refused(s, 0)
    ensures Inv(cfg, PacketRead(cfg, s))
  {
    var gate := Current(s).gate;
    var s1 := Flagged(s, false, Current(s).torn);
    hide Inv, EndRound, IsSettled;
    FlagsInv(cfg, s, false, Current(s).torn);
    if gate.status == INVALID_TOKEN {
      RefusalSettles(cfg, s1);
      EndRoundInv(cfg, s1, TokenInvalid, gate.id, false);
    } else {
      SettledGrows(s, s1);
      EndRoundInv(cfg, s1, ConvertAppleError(gate.status), 0, true);
    }
  }

  lemma {:induction false} ConnectInv(cfg: Config, s: State, outcome: ConnectOutcome)
    requires Inv(cfg, s) && s.phase.Reconnecting?
    ensures Inv(cfg, Reconnected(s, outcome))
  {
    var s' := Reconnected(s, outcome);
    assert Grows(s, s');
    SettledGrows(s, s');
    hide IsSettled, Refused, Grows;
    forall d | 0 <= d < |s'.conns| ensures ConnOk(cfg, s'.log, s'.conns[d]) {
      if d < |s.conns| { assert ConnOk(cfg, s.log, s.conns[d]); }
    }
  }

  lemma {:induction false} QuietInv(cfg: Config, s: State)
    requires Inv(cfg, s) && s.phase.Sending? && s.phase.i >= cfg.count
    ensures Inv(cfg, s.(phase := Done(Success)))
  {
    SettledGrows(s, s.(phase := Done(Success)));
    hide IsSettled, Refused;
  }

  lemma {:induction false} StepInv(cfg: Config, s: State, e: Event)
    requires cfg.count > 0 && Inv(cfg, s) && Safe(cfg, s, e)
    ensures Inv(cfg, Step(cfg, s, e))
  {
    hide EndRound, Judged, Halted, PacketRead, Written, Reconnected, IsSettled, Refused, Covered;
    if Enabled(cfg, s, e) {
      match e
      case Judge(c, accept) => JudgeInv(cfg, s, c, accept);
      case Halt(c, status) => HaltInv(cfg, s, c, status);
      case Write(_) => WriteInv(cfg, s);
      case WriteFail(_, error) =>
        FlagsInv(cfg, s, Current(s).unread, true);
        EndRoundInv(cfg, Flagged(s, Current(s).unread, true), error, 0, true);
      case SelectFail(code) => EndRoundInv(cfg, s, Sys(code), 0, true);
      case Read => ReadInv(cfg, s);
      case ReadFail(error) =>
        BacklogSettles(cfg, s, s.phase.i);
        EndRoundInv(cfg, s, error, s.phase.i, false);
      case Quiet => QuietInv(cfg, s);
      case Connect(outcome) => ConnectInv(cfg, s, outcome);
    }
  }

  /** Main result: over every run, whatever writes fail, connections shut down, reconnects fail,
      refusals come late or rounds restart on the old connection, everything below the resume
      index is settled, and so is everything up to the last recorded index. */
  lemma {:induction false} SettledPrefix(cfg: Config, events: seq<Event>)
    requires cfg.count > 0 && SafeRun(cfg, events)
    ensures var s := Run(cfg, Start(), events);
            && Inv(cfg, s)
            && (forall j: nat | j < s.start :: IsSettled(s, j))
            && (s.invalid != [] ==> forall j: nat | j <= s.invalid[|s.invalid| - 1] :: IsSettled(s, j))
  {
    hide Step;
    if events != [] {
      var n := |events| - 1;
      SettledPrefix(cfg, events[..n]);
      StepInv(cfg, Run(cfg, Start(), events[..n]), events[n]);
    }
  }

  // ----- exactly when

  /** One read failure moves the resume index to the current position, settled or not. */
  lemma {:induction false} ReadFailExactly(cfg: Config, s: State, error: Error)
    requires Inv(cfg, s) && Enabled(cfg, s, ReadFail(error))
    ensures PrefixSettled(Step(cfg, s, ReadFail(error))) <==> BacklogSettled(s, s.phase.i)
  {
    var s' := Step(cfg, s, ReadFail(error));
    assert s'.start == s.phase.i && s'.log == s.log && s'.invalid == s.invalid && s'.conns == s.conns;
    assert forall j: nat :: IsSettled(s', j) <==> IsSettled(s, j);
    BacklogSettles(cfg, s, s.phase.i);
  }

  /** Status 5 moves it to index 1, with token 0 recorded. */
  lemma {:induction false} StatusFiveExactly(cfg: Config, s: State)
    requires ReadsStatusFive(cfg, s, Read)
    ensures PrefixSettled(Step(cfg, s, Read)) <==> 0 in s.log || Refused(s, 0)
  {
    var s' := Step(cfg, s, Read);
    assert s'.start == 1 && s'.log == s.log && s'.invalid == s.invalid + [0];
    assert s'.invalid[|s.invalid|] == 0;
    StepGrows(cfg, s, Read);
    SettledGrows(s, s');
    if Refused(s', 0) {
      var c :| 0 <= c < |s'.conns| && s'.conns[c].gate == Stopped(INVALID_TOKEN, 0);
      assert s.conns[c].gate == s'.conns[c].gate;
    }
    assert PrefixSettled(s') <==> IsSettled(s', 0);
  }

  lemma {:induction false} UnsafeUnsettles(cfg: Config, s: State, e: Event)
    requires cfg.count > 0 && Inv(cfg, s)
    ensures PrefixSettled(Step(cfg, s, e)) <==> Safe(cfg, s, e)
  {
    hide Step, Enabled, EndRound, BacklogSettled, IsSettled, Refused;
    if Safe(cfg, s, e) {
      StepInv(cfg, s, e);
    } else if e.ReadFail? {
      ReadFailExactly(cfg, s, e.error);
    } else {
      StatusFiveExactly(cfg, s);
    }
  }

  /** The condition is exact, for all runs: the prefix is settled at every moment if and only if no
      read failure strikes over an unsettled backlog and no status 5 is read before token 0 got its
      verdict. */
  lemma {:induction false} SettledExactly(cfg: Config, events: seq<Event>)
    requires cfg.count > 0
    ensures Throughout(cfg, events, PrefixSettled) <==> SafeRun(cfg, events)
  {
    if events == [] {
      ThroughoutNothing(cfg, PrefixSettled);
      assert PrefixSettled(Start());
    } else {
      hide Step, Throughout, Safe, Inv, PrefixSettled;
      var n := |events| - 1;
      var init, e := events[..n], events[n];
      assert events == init + [e];
      SettledExactly(cfg, init);
      ThroughoutSnoc(cfg, init, e, PrefixSettled);
      if SafeRun(cfg, init) {
        SettledPrefix(cfg, init);
        UnsafeUnsettles(cfg, Run(cfg, Start(), init), e);
      }
    }
  }

  /** A read failure strikes only when the gateway has accepted all frames of the connection. */
  ghost predicate DrainedReads(cfg: Config, s: State, e: Event) {
    e.ReadFail? && Enabled(cfg, s, e) ==> Drained(s)
  }

  /** In terms of what the gateway did, for all runs: drained connections at every read failure, and
      a gateway that does not send status 5, keep the prefix settled. */
  lemma {:induction false} DrainedReadsSuffice(cfg: Config, events: seq<Event>)
    requires cfg.count > 0
    requires Along(cfg, Start(), events, (s, e) => DrainedReads(cfg, s, e) && !ReadsStatusFive(cfg, s, e))
    ensures SafeRun(cfg, events) && Throughout(cfg, events, PrefixSettled)
  {
    DrainedReadsSafe(cfg, events);
    SettledExactly(cfg, events);
  }

  lemma {:induction false} DrainedReadsSafe(cfg: Config, events: seq<Event>)
    requires Along(cfg, Start(), events, (s, e) => DrainedReads(cfg, s, e) && !ReadsStatusFive(cfg, s, e))
    ensures SafeRun(cfg, events)
  {
    hide Step, Enabled;
    if events != [] { DrainedReadsSafe(cfg, events[..|events| - 1]); }
  }
}
