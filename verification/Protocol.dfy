/** The batch-send protocol of `apn_send` as a step machine.

    Two parties act on a growing list of connections: the client, which numbers
    each notification with the index of its device token, and the gateway, which
    judges the frames of a connection in order, stops at the first one it refuses
    and ignores everything behind it.  All nondeterminism (gateway verdicts, the
    moment an error packet is noticed, faults) sits in the list of events: an event
    that is not enabled leaves the state alone, so every list of events is a run. */
module Protocol {

  /** The `errno` values that steer `apn_send`; `Sys` is a plain system error. */
  datatype Error =
    | ConnectionClosed
    | NetworkTimedOut
    | NetworkUnreachable
    | TokenInvalid
    | InvalidPayloadSize
    | ProcessingError
    | ServiceShutdown
    | SslWriteFailed
    | SslReadFailed
    | ConnectFailed
    | Unknown
    | Sys(code: int)

  const INVALID_TOKEN_SIZE := 5
  const INVALID_TOKEN := 8
  const SERVICE_SHUTDOWN := 10

  /** The system error of an interrupted call, which is repeated. */
  const EINTR := 4

  function ConvertAppleError(status: int): Error {
    match status
    case 1 => ProcessingError
    case 7 => InvalidPayloadSize
    case 10 => ServiceShutdown
    case 8 => TokenInvalid
    case 5 => TokenInvalid
    case _ => Unknown
  }

  /** The errors after which a new connection is opened, if the option is set. */
  predicate Retryable(e: Error) {
    e in {ConnectionClosed, ServiceShutdown, NetworkTimedOut, NetworkUnreachable, TokenInvalid}
  }

  predicate WriteError(e: Error) {
    e in {NetworkUnreachable, NetworkTimedOut, SslWriteFailed, ConnectionClosed}
  }

  predicate ReadError(e: Error) {
    e in {NetworkUnreachable, NetworkTimedOut, SslReadFailed, ConnectionClosed}
  }

  /** What the gateway does with a connection: read on, or nothing any more after
      the error packet (status, id) was issued. */
  datatype Gate = Open | Stopped(status: int, id: nat)

  /** `wire` lists the ids of the complete frames written to the connection,
      `taken` counts how many of them the gateway accepted.  `unread` says that an
      error packet waits for the client, `torn` that a write failed part-way. */
  datatype Conn = Conn(wire: seq<nat>, taken: nat, gate: Gate, unread: bool, torn: bool)

  const FRESH := Conn([], 0, Open, false, false)

  /** The accepted frames are a prefix of the wire, and a status 8 packet names the next one. */
  ghost predicate Shape(c: Conn) {
    && c.taken <= |c.wire|
    && (c.gate.Stopped? && c.gate.status == INVALID_TOKEN ==> c.taken < |c.wire| && c.wire[c.taken] == c.gate.id)
  }

  datatype Outcome = Success | Failure(error: Error)

  /** `Sending(i)` is the loop of one round; with `i` equal to the number of tokens
      it is the final wait for an error packet. */
  datatype Phase = Sending(i: nat) | Reconnecting | Done(outcome: Outcome)

  /** The last element of `conns` is the current connection.  `log` is what the
      gateway accepted, on any connection, in order of acceptance; `rounds` counts
      failed rounds and `resets` those whose resume index carries no information
      from the connection. */
  datatype State = State(
    conns: seq<Conn>,
    start: nat,
    autoReconnect: bool,
    phase: Phase,
    invalid: seq<nat>,
    log: seq<nat>,
    rounds: nat,
    resets: nat)

  datatype Config = Config(count: nat, reconnect: bool)

  /** The ways `apn_connect` ends, in the order in which it can fail. */
  datatype ConnectOutcome =
    | NoCertificate
    | NotResolved
    | NoSocket
    | NotConnected
    | CertificateRefused
    | NoSsl
    | HandshakeFailed
    | Connected

  datatype Event =
    // the gateway, on any connection, even one the client already dropped
    | Judge(conn: nat, accept: bool)
    | Halt(conn: nat, status: int)
    // the client, on its current connection
    | Write(chunks: seq<nat>)
    | WriteFail(chunks: seq<nat>, error: Error)
    | SelectFail(code: int)
    | Read
    | ReadFail(error: Error)
    | Quiet
    | Connect(outcome: ConnectOutcome)

  predicate GatewayEvent(e: Event) {
    e.Judge? || e.Halt?
  }

  function Start(): State {
    State([FRESH], 0, false, Sending(0), [], [], 0, 0)
  }

  function Current(s: State): Conn
    requires s.conns != []
  {
    s.conns[|s.conns| - 1]
  }

  function SetCurrent(s: State, c: Conn): State
    requires s.conns != []
  {
    s.(conns := s.conns[|s.conns| - 1 := c])
  }

  predicate Enabled(cfg: Config, s: State, e: Event) {
    s.conns != [] &&
    match e
    case Judge(c, _) => c < |s.conns| && s.conns[c].gate.Open? && s.conns[c].taken < |s.conns[c].wire|
    case Halt(c, status) => c < |s.conns| && s.conns[c].gate.Open? && 1 <= status <= 255 && status != INVALID_TOKEN
    case Write(_) => s.phase.Sending? && s.phase.i < cfg.count && !Current(s).torn
    case WriteFail(_, error) => s.phase.Sending? && s.phase.i < cfg.count && WriteError(error)
    case SelectFail(code) => s.phase.Sending? && code != EINTR
    case Read => s.phase.Sending? && Current(s).unread && Current(s).gate.Stopped?
    case ReadFail(error) => s.phase.Sending? && ReadError(error)
    case Quiet => s.phase.Sending? && s.phase.i >= cfg.count
    case Connect(_) => s.phase.Reconnecting?
  }

  /** What `apn_send` does after a failed round: `error` is the code it works with,
      `index` the value the round left in `invalid_token_index`. */
  function EndRound(cfg: Config, s: State, error: Error, index: nat, reset: bool): State {
    var start := if error.TokenInvalid? then index + 1 else index;
    var auto := s.autoReconnect || (start < cfg.count && cfg.reconnect && Retryable(error));
    s.(start := start,
       autoReconnect := auto,
       invalid := if error.TokenInvalid? then s.invalid + [index] else s.invalid,
       rounds := s.rounds + 1,
       resets := if reset then s.resets + 1 else s.resets,
       phase := if start < cfg.count then
                  if auto then Reconnecting else Sending(start)
                else
                  Done(if error.TokenInvalid? then Success else Failure(error)))
  }

  function Judged(s: State, c: nat, accept: bool): State
    requires c < |s.conns| && s.conns[c].taken < |s.conns[c].wire|
  {
    var conn := s.conns[c];
    var id := conn.wire[conn.taken];
    if accept then
      s.(conns := s.conns[c := conn.(taken := conn.taken + 1)], log := s.log + [id])
    else
      s.(conns := s.conns[c := conn.(gate := Stopped(INVALID_TOKEN, id), unread := true)])
  }

  function Halted(s: State, c: nat, status: int): State
    requires c < |s.conns|
  {
    s.(conns := s.conns[c := s.conns[c].(gate := Stopped(status, 0), unread := true)])
  }

  function Written(s: State): State
    requires s.conns != [] && s.phase.Sending?
  {
    SetCurrent(s, Current(s).(wire := Current(s).wire + [s.phase.i])).(phase := Sending(s.phase.i + 1))
  }

  /** A read or a failed write is noted on the current connection. */
  function Flagged(s: State, unread: bool, torn: bool): State
    requires s.conns != []
  {
    SetCurrent(s, Current(s).(unread := unread, torn := torn))
  }

  /** The client reads an error packet; only status 8 tells it an index. */
  function PacketRead(cfg: Config, s: State): State
    requires s.conns != [] && Current(s).gate.Stopped?
  {
    var gate := Current(s).gate;
    EndRound(cfg, Flagged(s, false, Current(s).torn), ConvertAppleError(gate.status),
             if gate.status == INVALID_TOKEN then gate.id else 0, gate.status != INVALID_TOKEN)
  }

  function Reconnected(s: State, outcome: ConnectOutcome): State {
    if outcome.Connected? then s.(conns := s.conns + [FRESH], phase := Sending(s.start))
    else s.(phase := Done(Failure(ConnectFailed)))
  }

  function Step(cfg: Config, s: State, e: Event): State {
    if !Enabled(cfg, s, e) then s
    else
      match e
      case Judge(c, accept) => Judged(s, c, accept)
      case Halt(c, status) => Halted(s, c, status)
      case Write(_) => Written(s)
      case WriteFail(_, error) => EndRound(cfg, Flagged(s, Current(s).unread, true), error, 0, true)
      case SelectFail(code) => EndRound(cfg, s, Sys(code), 0, true)
      case Read => PacketRead(cfg, s)
      case ReadFail(error) => EndRound(cfg, s, error, s.phase.i, false)
      case Quiet => s.(phase := Done(Success))
      case Connect(outcome) => Reconnected(s, outcome)
  }

  function Run(cfg: Config, s: State, events: seq<Event>): State {
    if events == [] then s
    else Step(cfg, Run(cfg, s, events[..|events| - 1]), events[|events| - 1])
  }

  lemma RunExtend(cfg: Config, s: State, events: seq<Event>, k: nat)
    requires k < |events|
    ensures Run(cfg, s, events[..k + 1]) == Step(cfg, Run(cfg, s, events[..k]), events[k])
  {
    assert events[..k + 1][..k] == events[..k];
  }

  lemma {:induction false} RunSnoc(cfg: Config, s: State, events: seq<Event>, e: Event)
    ensures Run(cfg, s, events + [e]) == Step(cfg, Run(cfg, s, events), e)
  {
    assert (events + [e])[..|events|] == events;
  }

  /** For concrete runs: the states a run goes through. */
  ghost predicate IsTrace(cfg: Config, events: seq<Event>, states: seq<State>) {
    && |states| == |events| + 1 && states[0] == Start()
    && forall k | 0 <= k < |events| :: Step(cfg, states[k], events[k]) == states[k + 1]
  }

  lemma {:induction false} TraceRun(cfg: Config, events: seq<Event>, states: seq<State>, k: nat)
    requires IsTrace(cfg, events, states) && k <= |events|
    ensures Run(cfg, Start(), events[..k]) == states[k]
  {
    hide Step;
    if k > 0 {
      TraceRun(cfg, events, states, k - 1);
      RunExtend(cfg, Start(), events, k - 1);
    }
  }

  /** `allowed` holds of every event of the run, in the state in which it happens. */
  ghost predicate Along(cfg: Config, s: State, events: seq<Event>, allowed: (State, Event) -> bool) {
    events == [] ||
    var n := |events| - 1;
    Along(cfg, s, events[..n], allowed) && allowed(Run(cfg, s, events[..n]), events[n])
  }

  /** `good` holds of every state of the run. */
  ghost predicate Throughout(cfg: Config, events: seq<Event>, good: State -> bool) {
    forall k | 0 <= k <= |events| :: good(Run(cfg, Start(), events[..k]))
  }

  lemma ThroughoutNothing(cfg: Config, good: State -> bool)
    ensures Throughout(cfg, [], good) <==> good(Start())
  {
    var none: seq<Event> := [];
    assert forall k | 0 <= k <= |none| :: none[..k] == [];
    assert none[..0] == [];
  }

  lemma {:induction false} ThroughoutSnoc(cfg: Config, init: seq<Event>, e: Event, good: State -> bool)
    ensures Throughout(cfg, init + [e], good) <==>
            Throughout(cfg, init, good) && good(Step(cfg, Run(cfg, Start(), init), e))
  {
    hide Step;
    var n, events := |init|, init + [e];
    RunSnoc(cfg, Start(), init, e);
    hide Run;
    assert events[..n + 1] == events;
    assert forall k | 0 <= k <= n :: events[..k] == init[..k];
    if Throughout(cfg, events, good) {
      assert good(Run(cfg, Start(), events[..n + 1]));
      forall k | 0 <= k <= n ensures good(Run(cfg, Start(), init[..k])) {
        assert good(Run(cfg, Start(), events[..k]));
      }
    }
    if Throughout(cfg, init, good) && good(Run(cfg, Start(), events)) {
      forall k | 0 <= k <= n + 1 ensures good(Run(cfg, Start(), events[..k])) {
        assert k <= n ==> good(Run(cfg, Start(), init[..k]));
      }
    }
  }
}
