/** Concrete runs in which `apn_send` does not do what its callers rely on. */
module Witnesses {
  import opened Protocol
  import opened Settled
  import opened Recorded

  const LOST := Conn([0], 0, Open, false, false)

  lemma WriteOne(cfg: Config, s: State, t: State)
    requires s.conns != [] && Enabled(cfg, s, Write([])) && |t.conns| == |s.conns|
    requires t == s.(conns := t.conns, phase := Sending(s.phase.i + 1))
    requires forall c | 0 <= c < |s.conns| - 1 :: t.conns[c] == s.conns[c]
    requires Current(t) == Current(s).(wire := Current(t).wire) && Current(t).wire == Current(s).wire + [s.phase.i]
    ensures Step(cfg, s, Write([])) == t
  {
    assert Written(s).conns == t.conns;
  }

  lemma QuietLast(cfg: Config, s: State)
    requires Enabled(cfg, s, Quiet)
    ensures Step(cfg, s, Quiet) == s.(phase := Done(Success))
  {
  }

  const LOSS: seq<Event> :=
    [Write([]), ReadFail(ConnectionClosed), Connect(Connected), Write([]), Judge(1, true), Quiet]

  function LossState(k: nat): State {
    match k
    case 0 => Start()
    case 1 => State([LOST], 0, false, Sending(1), [], [], 0, 0)
    case 2 => State([LOST], 1, true, Reconnecting, [], [], 1, 0)
    case 3 => State([LOST, FRESH], 1, true, Sending(1), [], [], 1, 0)
    case 4 => State([LOST, Conn([1], 0, Open, false, false)], 1, true, Sending(2), [], [], 1, 0)
    case 5 => State([LOST, Conn([1], 1, Open, false, false)], 1, true, Sending(2), [], [1], 1, 0)
    case _ => State([LOST, Conn([1], 1, Open, false, false)], 1, true, Done(Success), [], [1], 1, 0)
  }

  lemma Loss1()
    ensures Step(Config(2, true), LossState(0), Write([])) == LossState(1)
  {
    WriteOne(Config(2, true), LossState(0), LossState(1));
  }

  lemma Loss2()
    ensures Step(Config(2, true), LossState(1), ReadFail(ConnectionClosed)) == LossState(2)
  {
    var s, t := Step(Config(2, true), LossState(1), ReadFail(ConnectionClosed)), LossState(2);
    assert s.conns == t.conns && s.log == t.log && s.invalid == t.invalid;
  }

  lemma Loss3()
    ensures Step(Config(2, true), LossState(2), Connect(Connected)) == LossState(3)
  {
    var s, t := Step(Config(2, true), LossState(2), Connect(Connected)), LossState(3);
    assert s.conns == t.conns && s.log == t.log && s.invalid == t.invalid;
  }

  lemma Loss4()
    ensures Step(Config(2, true), LossState(3), Write([])) == LossState(4)
  {
    WriteOne(Config(2, true), LossState(3), LossState(4));
  }

  lemma Loss5()
    ensures Step(Config(2, true), LossState(4), Judge(1, true)) == LossState(5)
  {
    var s, t := Step(Config(2, true), LossState(4), Judge(1, true)), LossState(5);
    assert s.conns == t.conns && s.log == t.log && s.invalid == t.invalid;
  }

  /** The failing family is real: a connection closed with a frame in flight, noticed by a read,
      makes the client resume behind that frame and finish with success. */
  lemma ReadFailureLoses()
    ensures var s := Run(Config(2, true), Start(), LOSS);
            s.phase == Done(Success) && s.log == [1] && s.invalid == [] && !IsSettled(s, 0)
  {
    hide Step;
    Loss1(); Loss2(); Loss3(); Loss4(); Loss5();
    QuietLast(Config(2, true), LossState(5));
    var states := seq(7, k requires 0 <= k < 7 => LossState(k));
    TraceRun(Config(2, true), LOSS, states, 6);
    assert LOSS[..6] == LOSS;
  }

  const BLAME: seq<Event> := [Write([]), Judge(0, true), Write([]), Halt(0, INVALID_TOKEN_SIZE), Read]

  function BlameState(k: nat): State {
    match k
    case 0 => Start()
    case 1 => State([Conn([0], 0, Open, false, false)], 0, false, Sending(1), [], [], 0, 0)
    case 2 => State([Conn([0], 1, Open, false, false)], 0, false, Sending(1), [], [0], 0, 0)
    case 3 => State([Conn([0, 1], 1, Open, false, false)], 0, false, Sending(2), [], [0], 0, 0)
    case 4 => State([Conn([0, 1], 1, Stopped(5, 0), true, false)], 0, false, Sending(2), [], [0], 0, 0)
    case _ => State([Conn([0, 1], 1, Stopped(5, 0), false, false)], 1, true, Reconnecting, [0], [0], 1, 1)
  }

  lemma Blame1()
    ensures Step(Config(2, true), BlameState(0), Write([])) == BlameState(1)
  {
    WriteOne(Config(2, true), BlameState(0), BlameState(1));
  }

  lemma Blame2()
    ensures Step(Config(2, true), BlameState(1), Judge(0, true)) == BlameState(2)
  {
    var s, t := Step(Config(2, true), BlameState(1), Judge(0, true)), BlameState(2);
    assert s.conns == t.conns && s.log == t.log && s.invalid == t.invalid;
  }

  lemma Blame3()
    ensures Step(Config(2, true), BlameState(2), Write([])) == BlameState(3)
  {
    WriteOne(Config(2, true), BlameState(2), BlameState(3));
  }

  lemma Blame4()
    ensures Step(Config(2, true), BlameState(3), Halt(0, INVALID_TOKEN_SIZE)) == BlameState(4)
  {
    var s, t := Step(Config(2, true), BlameState(3), Halt(0, INVALID_TOKEN_SIZE)), BlameState(4);
    assert s.conns == t.conns && s.log == t.log && s.invalid == t.invalid;
  }

  lemma Blame5()
    ensures Step(Config(2, true), BlameState(4), Read) == BlameState(5)
  {
    var s, t := Step(Config(2, true), BlameState(4), Read), BlameState(5);
    assert s.conns == t.conns && s.log == t.log && s.invalid == t.invalid;
  }

  /** Status 5 carries no index, so the client blames token 0, which the gateway accepted. */
  lemma StatusFiveBlamesTokenZero()
    ensures var s := Run(Config(2, true), Start(), BLAME);
            s.log == [0] && s.invalid == [0] && !Refused(s, 0)
  {
    hide Step;
    Blame1(); Blame2(); Blame3(); Blame4(); Blame5();
    var states := seq(6, k requires 0 <= k < 6 => BlameState(k));
    TraceRun(Config(2, true), BLAME, states, 5);
    assert BLAME[..5] == BLAME;
  }

  const DEAD: seq<Event> := [Write([]), Halt(0, 7), Read, Write([]), Quiet]

  function DeadState(k: nat): State {
    match k
    case 0 => Start()
    case 1 => State([Conn([0], 0, Open, false, false)], 0, false, Sending(1), [], [], 0, 0)
    case 2 => State([Conn([0], 0, Stopped(7, 0), true, false)], 0, false, Sending(1), [], [], 0, 0)
    case 3 => State([Conn([0], 0, Stopped(7, 0), false, false)], 0, false, Sending(0), [], [], 1, 1)
    case 4 => State([Conn([0, 0], 0, Stopped(7, 0), false, false)], 0, false, Sending(1), [], [], 1, 1)
    case _ => State([Conn([0, 0], 0, Stopped(7, 0), false, false)], 0, false, Done(Success), [], [], 1, 1)
  }

  lemma Dead1()
    ensures Step(Config(1, true), DeadState(0), Write([])) == DeadState(1)
  {
    WriteOne(Config(1, true), DeadState(0), DeadState(1));
  }

  lemma Dead2()
    ensures Step(Config(1, true), DeadState(1), Halt(0, 7)) == DeadState(2)
  {
    var s, t := Step(Config(1, true), DeadState(1), Halt(0, 7)), DeadState(2);
    assert s.conns == t.conns && s.log == t.log && s.invalid == t.invalid;
  }

  lemma Dead3()
    ensures Step(Config(1, true), DeadState(2), Read) == DeadState(3)
  {
    var s, t := Step(Config(1, true), DeadState(2), Read), DeadState(3);
    assert s.conns == t.conns && s.log == t.log && s.invalid == t.invalid;
  }

  lemma Dead4()
    ensures Step(Config(1, true), DeadState(3), Write([])) == DeadState(4)
  {
    WriteOne(Config(1, true), DeadState(3), DeadState(4));
  }

  lemma {:induction false} NoReadFailures(cfg: Config, events: seq<Event>)
    requires forall e | e in events :: !e.ReadFail?
    ensures Along(cfg, Start(), events, (s, e) => DrainedReads(cfg, s, e))
  {
    hide Step;
    if events != [] {
      var n := |events| - 1;
      assert events[n] in events && forall e | e in events[..n] :: e in events;
      NoReadFailures(cfg, events[..n]);
    }
  }

  lemma NothingUnsafe(cfg: Config, events: seq<Event>)
    requires cfg.count > 0 && forall e | e in events :: !e.ReadFail? && !SendsStatusFive(e)
    ensures SafeRun(cfg, events)
  {
    NoReadFailures(cfg, events);
    DrainedPrefix(cfg, events);
  }

  /** An error that is not retried starts the batch over on the connection the gateway has given up.
      All writes go nowhere, no error comes any more, and the call ends in success, although the
      reconnect option is set and no event of the run is unsafe. */
  lemma DeadConnectionLoses()
    ensures SafeRun(Config(1, true), DEAD)
    ensures var s := Run(Config(1, true), Start(), DEAD);
            s.phase == Done(Success) && s.log == [] && s.invalid == [] && !IsSettled(s, 0)
  {
    hide Step;
    NothingUnsafe(Config(1, true), DEAD);
    Dead1(); Dead2(); Dead3(); Dead4();
    QuietLast(Config(1, true), DeadState(4));
    var states := seq(6, k requires 0 <= k < 6 => DeadState(k));
    TraceRun(Config(1, true), DEAD, states, 5);
    assert DEAD[..5] == DEAD;
  }

  const OFF: seq<Event> := [Write([]), Judge(0, false), Read, Write([]), Quiet]

  function OffState(k: nat): State {
    match k
    case 0 => Start()
    case 1 => State([Conn([0], 0, Open, false, false)], 0, false, Sending(1), [], [], 0, 0)
    case 2 => State([Conn([0], 0, Stopped(8, 0), true, false)], 0, false, Sending(1), [], [], 0, 0)
    case 3 => State([Conn([0], 0, Stopped(8, 0), false, false)], 1, false, Sending(1), [0], [], 1, 0)
    case 4 => State([Conn([0, 1], 0, Stopped(8, 0), false, false)], 1, false, Sending(2), [0], [], 1, 0)
    case _ => State([Conn([0, 1], 0, Stopped(8, 0), false, false)], 1, false, Done(Success), [0], [], 1, 0)
  }

  lemma Off1()
    ensures Step(Config(2, false), OffState(0), Write([])) == OffState(1)
  {
    WriteOne(Config(2, false), OffState(0), OffState(1));
  }

  lemma Off2()
    ensures Step(Config(2, false), OffState(1), Judge(0, false)) == OffState(2)
  {
    var s, t := Step(Config(2, false), OffState(1), Judge(0, false)), OffState(2);
    assert s.conns == t.conns && s.log == t.log && s.invalid == t.invalid;
  }

  lemma Off3()
    ensures Step(Config(2, false), OffState(2), Read) == OffState(3)
  {
    var s, t := Step(Config(2, false), OffState(2), Read), OffState(3);
    assert s.conns == t.conns && s.log == t.log && s.invalid == t.invalid;
  }

  lemma Off4()
    ensures Step(Config(2, false), OffState(3), Write([])) == OffState(4)
  {
    WriteOne(Config(2, false), OffState(3), OffState(4));
  }

  /** Without the reconnect option the rest of the batch follows a refusal on the same connection,
      where it is ignored: one bad token costs all behind it, and the call ends in success. */
  lemma OptionOffLoses()
    ensures SafeRun(Config(2, false), OFF)
    ensures var s := Run(Config(2, false), Start(), OFF);
            s.phase == Done(Success) && s.log == [] && s.invalid == [0] && !IsSettled(s, 1)
  {
    hide Step;
    NothingUnsafe(Config(2, false), OFF);
    Off1(); Off2(); Off3(); Off4();
    QuietLast(Config(2, false), OffState(4));
    var states := seq(6, k requires 0 <= k < 6 => OffState(k));
    TraceRun(Config(2, false), OFF, states, 5);
    assert OFF[..5] == OFF;
  }

  const CUT: seq<Event> :=
    [Write([]), ReadFail(ConnectionClosed), Connect(Connected), Write([]), Judge(1, false), Read]

  function CutState(k: nat): State {
    match k
    case 0 => Start()
    case 1 => State([LOST], 0, false, Sending(1), [], [], 0, 0)
    case 2 => State([LOST], 1, true, Reconnecting, [], [], 1, 0)
    case 3 => State([LOST, FRESH], 1, true, Sending(1), [], [], 1, 0)
    case 4 => State([LOST, Conn([1], 0, Open, false, false)], 1, true, Sending(2), [], [], 1, 0)
    case 5 => State([LOST, Conn([1], 0, Stopped(8, 1), true, false)], 1, true, Sending(2), [], [], 1, 0)
    case _ => State([LOST, Conn([1], 0, Stopped(8, 1), false, false)], 2, true, Done(Success), [1], [], 2, 0)
  }

  lemma Cut1()
    ensures Step(Config(2, true), CutState(0), Write([])) == CutState(1)
  {
    WriteOne(Config(2, true), CutState(0), CutState(1));
  }

  lemma Cut2()
    ensures Step(Config(2, true), CutState(1), ReadFail(ConnectionClosed)) == CutState(2)
  {
    var s, t := Step(Config(2, true), CutState(1), ReadFail(ConnectionClosed)), CutState(2);
    assert s.conns == t.conns && s.log == t.log && s.invalid == t.invalid;
  }

  lemma Cut3()
    ensures Step(Config(2, true), CutState(2), Connect(Connected)) == CutState(3)
  {
    var s, t := Step(Config(2, true), CutState(2), Connect(Connected)), CutState(3);
    assert s.conns == t.conns && s.log == t.log && s.invalid == t.invalid;
  }

  lemma Cut4()
    ensures Step(Config(2, true), CutState(3), Write([])) == CutState(4)
  {
    WriteOne(Config(2, true), CutState(3), CutState(4));
  }

  lemma Cut5()
    ensures Step(Config(2, true), CutState(4), Judge(1, false)) == CutState(5)
  {
    var s, t := Step(Config(2, true), CutState(4), Judge(1, false)), CutState(5);
    assert s.conns == t.conns && s.log == t.log && s.invalid == t.invalid;
  }

  lemma Cut6()
    ensures Step(Config(2, true), CutState(5), Read) == CutState(6)
  {
    var s, t := Step(Config(2, true), CutState(5), Read), CutState(6);
    assert s.conns == t.conns && s.log == t.log && s.invalid == t.invalid;
  }

  /** Behind a lost frame a refusal can still be recorded: token 1 is reported, and token 0, in front
      of it, was neither accepted nor reported. */
  lemma RecordedBehindLoss()
    ensures var s := Run(Config(2, true), Start(), CUT);
            s.phase == Done(Success) && s.log == [] && s.invalid == [1] && !IsSettled(s, 0)
  {
    hide Step;
    Cut1(); Cut2(); Cut3(); Cut4(); Cut5(); Cut6();
    var states := seq(7, k requires 0 <= k < 7 => CutState(k));
    TraceRun(Config(2, true), CUT, states, 6);
    assert CUT[..6] == CUT;
  }
}
