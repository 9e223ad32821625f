/** The client of src/library/apn.c in its own form: the context whose socket and SSL
    handle come and go, the loop that streams one round, and the loop around it that
    resumes after errors.  It is proved to do what the step machine does, byte for byte. */
module Client {
  import opened Bytes
  import opened Frame
  import opened Protocol
  import opened Network
  import opened BinaryMessage
  import opened Carriers
  import Tokens

  /** `sock` is -1 when closed, `ssl` names the connection the SSL object is attached to. */
  class Context {
    var sock: int
    var ssl: Option<nat>
    var feedback: bool
    var reconnect: bool

    /** Without a socket there is no SSL object. */
    ghost predicate Valid()
      reads this
    {
      sock >= -1 && (sock == -1 ==> ssl == None)
    }

    constructor (reconnect: bool)
      ensures Valid() && sock == -1 && ssl == None && !feedback && this.reconnect == reconnect
    {
      sock, ssl, feedback, this.reconnect := -1, None, false, reconnect;
    }

    /** `apn_ssl_close` */
    method SslClose()
      modifies `ssl
      ensures ssl == None
    {
      if ssl.Some? {
        ssl := None;
      }
    }

    /** `apn_close` */
    method Close()
      requires Valid()
      modifies `sock, `ssl
      ensures Valid() && sock == -1 && ssl == None
    {
      if sock == -1 {
        return;
      }
      SslClose();
      sock := -1;
    }

    /** `__apn_connect` and `apn_ssl_connect`; the attempt, if one is made, has the given outcome, and
        `handle` names its connection.  With a socket still open nothing is attempted. */
    method Connect(outcome: ConnectOutcome, handle: nat) returns (ok: bool)
      requires Valid()
      modifies `sock, `ssl
      ensures Valid()
      ensures old(sock) == -1 ==>
                && (ok <==> outcome.Connected?)
                && (ssl.Some? <==> outcome.Connected? || outcome.HandshakeFailed?)
                && (sock != -1 <==> outcome.CertificateRefused? || outcome.NoSsl? || ssl.Some?)
                && (ssl.Some? ==> ssl.value == handle)
      ensures old(sock) != -1 ==> sock == old(sock) && ssl == old(ssl) && (ok <==> !outcome.NoCertificate?)
    {
      if outcome.NoCertificate? {
        return false;
      }
      if sock == -1 {
        if outcome.NotResolved? || outcome.NoSocket? {
          return false;
        }
        sock := handle;
        if outcome.NotConnected? {
          Close();
          return false;
        }
        if outcome.CertificateRefused? {
          return false;
        }
        ssl := if outcome.NoSsl? then None else Some(handle);
        if outcome.NoSsl? || outcome.HandshakeFailed? {
          return false;
        }
      }
      return true;
    }
  }

  /** How one round ends: `Failed` carries Apple's error code, 0 if there is none, the index left
      for the caller and `errno`. */
  datatype RoundResult = Sent | Failed(code: nat, index: nat, errno: Error) | Blocked

  /** The code `apn_send` works with. */
  function ErrorOf(code: nat, errno: Error): Error {
    if code > 0 then ConvertAppleError(code) else errno
  }

  /** Two states differ only in what the gateway and the wire did. */
  ghost predicate SameClient(s: State, s': State) {
    && s'.start == s.start && s'.autoReconnect == s.autoReconnect && s'.invalid == s.invalid
    && |s'.conns| == |s.conns| > 0 && s'.phase.Sending?
  }

  /** From `before` to `after` the round ended in an error, whatever became of the connection. */
  ghost predicate RoundEnded(cfg: Config, before: State, after: State, error: Error, index: nat, reset: bool) {
    exists conns | |conns| == |before.conns| :: after == EndRound(cfg, before.(conns := conns), error, index, reset)
  }

  /** `apn_strndup` with the length of a token */
  function Copied(token: string): (copy: string)
    ensures copy <= token && |copy| == if |token| < 64 then |token| else 64
  {
    if |token| > Tokens.HEX_LENGTH then token[..Tokens.HEX_LENGTH] else token
  }

  function TokensAt(tokens: seq<string>, ids: seq<nat>): seq<string>
    requires forall k | 0 <= k < |ids| :: ids[k] < |tokens|
  {
    seq(|ids|, k requires 0 <= k < |ids| => Copied(tokens[ids[k]]))
  }

  /** The array of invalid tokens holds copies of those at the recorded indices. */
  ghost predicate Records(tokens: seq<string>, ids: seq<nat>, invalidTokens: seq<string>) {
    (forall k | 0 <= k < |ids| :: ids[k] < |tokens|) && invalidTokens == TokensAt(tokens, ids)
  }

  lemma RecordsNone(tokens: seq<string>)
    ensures Records(tokens, [], [])
  {
  }

  lemma RecordsSnoc(tokens: seq<string>, ids: seq<nat>, invalidTokens: seq<string>, j: nat)
    requires Records(tokens, ids, invalidTokens) && j < |tokens|
    ensures Records(tokens, ids + [j], invalidTokens + [Copied(tokens[j])])
  {
  }

  /** What the loop of `apn_send` has to leave behind after a failed round. */
  lemma RoundEndedEffect(cfg: Config, s: State, before: State, after: State, error: Error, index: nat, reset: bool,
                         tokens: seq<string>, invalidTokens: seq<string>)
    requires SameClient(s, before) && RoundEnded(cfg, before, after, error, index, reset)
    requires Records(tokens, s.invalid, invalidTokens) && (error.TokenInvalid? ==> index < |tokens|)
    ensures var start := if error.TokenInvalid? then index + 1 else index;
            var auto := s.autoReconnect || (start < cfg.count && cfg.reconnect && Retryable(error));
            && after.start == start && after.autoReconnect == auto
            && after.phase == (if start >= cfg.count then Done(if error.TokenInvalid? then Success else Failure(error))
                               else if auto then Reconnecting else Sending(start))
    ensures Records(tokens, after.invalid,
                    if error.TokenInvalid? then invalidTokens + [Copied(tokens[index])] else invalidTokens)
  {
    if error.TokenInvalid? { RecordsSnoc(tokens, s.invalid, invalidTokens, index); }
    hide Records, Copied, Retryable;
  }

  lemma WriteStep(cfg: Config, s: State, e: Event)
    requires Enabled(cfg, s, e) && (e.Write? || e.WriteFail?)
    ensures var s' := Step(cfg, s, e);
            if e.Write? then SameClient(s, s') && s'.phase == Sending(s.phase.i + 1)
            else RoundEnded(cfg, s, s', e.error, 0, true)
  {
    if e.WriteFail? {
      assert Step(cfg, s, e) == EndRound(cfg, s.(conns := Flagged(s, Current(s).unread, true).conns), e.error, 0, true);
    }
  }

  lemma ReadStep(cfg: Config, s: State)
    requires Enabled(cfg, s, Read) && 1 <= Current(s).gate.status <= 255 && Current(s).gate.id < TWO_32
    ensures var gate := Current(s).gate;
            var (code, index) := ParseError(ErrorPacket(gate.status, gate.id), 0, 0);
            RoundEnded(cfg, s, Step(cfg, s, Read), ErrorOf(code, Unknown), index, gate.status != INVALID_TOKEN)
  {
    var gate := Current(s).gate;
    ParseErrorRoundTrip(gate.status, gate.id, 0, 0);
    var conns := Flagged(s, false, Current(s).torn).conns;
    assert Step(cfg, s, Read) ==
           EndRound(cfg, s.(conns := conns), ConvertAppleError(gate.status),
                    if gate.status == INVALID_TOKEN then gate.id else 0, gate.status != INVALID_TOKEN);
  }

  lemma QuietStep(cfg: Config, s: State)
    requires Enabled(cfg, s, Quiet)
    ensures Step(cfg, s, Quiet) == s.(phase := Done(Success))
  {
  }

  lemma FaultStep(cfg: Config, s: State, e: Event)
    requires Enabled(cfg, s, e) && (e.SelectFail? || e.ReadFail?)
    ensures if e.SelectFail? then RoundEnded(cfg, s, Step(cfg, s, e), Sys(e.code), 0, true)
            else RoundEnded(cfg, s, Step(cfg, s, e), e.error, s.phase.i, false)
  {
    assert s.(conns := s.conns) == s;
  }

  /** What `select` and the read that follows it bring: the schedule's end, a fault with the index it
      leaves, an error packet, or that the socket is ready (writable, or quiet in the final wait). */
  datatype Polled = Nothing | Fault(index: nat, errno: Error) | Packet(bytes: seq<byte>) | Idle

  /** `select` with the checks of `__APN_SELECT_ERROR` and `__API_SOCKET_READ`. */
  method Poll(net: Net, i: nat) returns (polled: Polled, ghost before: State, ghost reset: bool)
    requires net.Valid() && net.model.phase == Sending(i)
    modifies net
    ensures net.Valid() && net.clock >= old(net.clock) && |net.links| == old(|net.links|)
    ensures SameClient(old(net.model), before) && before.phase == Sending(i)
    ensures net.held == HeldAfter(net.batch.tokens, net.model, old(net.held))
    ensures polled.Nothing? ==> net.model == before && net.clock == |net.schedule|
    ensures polled.Fault? ==>
              && net.clock > old(net.clock) && !polled.errno.TokenInvalid?
              && RoundEnded(net.cfg, before, net.model, polled.errno, polled.index, reset)
    ensures polled.Packet? ==>
              && net.clock > old(net.clock) && |polled.bytes| == 6
              && var (code, index) := ParseError(polled.bytes, 0, 0);
                 && RoundEnded(net.cfg, before, net.model, ErrorOf(code, Unknown), index, reset)
                 && Current(before).gate.Stopped? && code == Current(before).gate.status
                 && index < |net.batch.tokens|
    ensures polled.Idle? ==>
              && net.model == before && net.clock < |net.schedule| && Enabled(net.cfg, before, net.schedule[net.clock])
              && var e := net.schedule[net.clock]; e.Write? || e.WriteFail? || e.Quiet?
  {
    hide Run, Matches, HistoryOk, Step, Decode, Encode, EndRound, Labelled, Tokens.Valid;
    HeldNow(net.batch, net.cfg, net.schedule[..net.clock], net.links, net.held, net.carried);
    var event := net.Select(i < |net.batch.tokens|);
    before, reset := net.model, true;
    if event == None {
      return Nothing, before, reset;
    }
    match event.value {
      case SelectFail(code) =>
        FaultStep(net.cfg, before, event.value);
        net.Pass();
        return Fault(0, Sys(code)), before, true;
      case ReadFail(error) =>
        FaultStep(net.cfg, before, event.value);
        net.Pass();
        return Fault(i, error), before, false;
      case Read =>
        var packet := net.Receive();
        ReadStep(net.cfg, before);
        ParseErrorRoundTrip(Current(before).gate.status, Current(before).gate.id, 0, 0);
        return Packet(packet), before, Current(before).gate.status != INVALID_TOKEN;
      case _ =>
        return Idle, before, reset;
    }
  }

  /** `__apn_send_binary_message`: one round from index `start`.  `before` is the state in which the
      round came to its end, and the round's result is what the step machine ends it with. */
  method SendBinaryMessage(ctx: Context, net: Net, message: Message, tokens: seq<string>, start: nat)
    returns (result: RoundResult, ghost before: State, ghost reset: bool)
    requires ctx.Valid() && ctx.sock != -1 && ctx.ssl == Some(|net.links| - 1)
    requires net.Valid() && tokens == net.batch.tokens && start < |tokens|
    requires net.model.phase == Sending(start) && net.model.start == start
    requires message.Valid() && Fitting(net, message) && Primed(net, message)
    modifies net, message, message.message
    ensures Primed(net, message)
    ensures net.Valid() && net.clock >= old(net.clock) && |net.links| == old(|net.links|)
    ensures message.Valid() && message.message == old(message.message) && Fitting(net, message)
    ensures SameClient(old(net.model), before)
    ensures result.Blocked? ==> net.model == before && net.clock == |net.schedule|
    ensures result.Sent? ==> net.model == before.(phase := Done(Success))
    ensures result.Failed? ==>
              && net.clock > old(net.clock)
              && (ErrorOf(result.code, result.errno).TokenInvalid? ==> result.index < |tokens|)
              && (result.code > 0 ==>
                    && Current(before).gate.Stopped? && result.code == Current(before).gate.status
                    && ErrorOf(result.code, result.errno) == (if result.code == 1 then ProcessingError
                                                              else if result.code == 7 then InvalidPayloadSize
                                                              else if result.code == 10 then ServiceShutdown
                                                              else if result.code == 5 || result.code == 8 then TokenInvalid
                                                              else Unknown))
              && RoundEnded(net.cfg, before, net.model, ErrorOf(result.code, result.errno), result.index, reset)
  {
    hide Run, HistoryOk, Step, Decode, Encode, EndRound, Matches, Message.Valid, RoundEnded, Labelled, Tokens.Valid;
    var polled := Nothing;
    before, reset := net.model, true;
    var i := start;
    while i < |tokens|
      invariant start <= i <= |tokens|
      invariant net.Valid() && net.clock >= old(net.clock) && |net.links| == old(|net.links|)
      invariant SameClient(old(net.model), net.model) && net.model.phase == Sending(i)
      invariant message.Valid() && message.message == old(message.message) && Fitting(net, message)
      invariant Primed(net, message)
      invariant !polled.Packet? && SameClient(old(net.model), before)
    {
      Prepare(net, message, tokens[i], i);
      polled, before, reset := Poll(net, i);
      match polled {
        case Nothing => return Blocked, before, reset;
        case Fault(index, errno) => return Failed(0, index, errno), before, reset;
        case Packet(_) => break;
        case Idle =>
          WriteStep(net.cfg, before, net.schedule[net.clock]);
          var written, error := net.Write(message.message[..], message.content);
          if written <= 0 {
            return Failed(0, 0, error), before, true;
          }
      }
      i := i + 1;
    }

    if !polled.Packet? {
      polled, before, reset := Poll(net, i);
      match polled {
        case Nothing => return Blocked, before, reset;
        case Fault(index, errno) => return Failed(0, index, errno), before, reset;
        case Packet(_) =>
        case Idle =>
          QuietStep(net.cfg, before);
          net.Pass();
          return Sent, before, reset;
      }
    }
    var (code, index) := ParseError(polled.bytes, 0, 0);
    return Failed(code, index, Unknown), before, reset;
  }

  /** The buffer was built for the batch; token and id may be any. */
  ghost predicate Fitting(net: Net, message: Message)
    reads message
  {
    message.content == Notification(message.content.token, net.batch.payload, message.content.id,
                                    net.batch.expiry % TWO_32, net.batch.priority)
  }

  /** The buffer holds the token the frames to come are to carry, or is about to receive it. */
  ghost predicate Primed(net: Net, message: Message)
    reads net, message
  {
    var s, tokens := net.model, net.batch.tokens;
    || (s.phase.Sending? && s.phase.i < |tokens| && Tokens.Valid(tokens[s.phase.i]))
    || Holds(tokens, net.held, message.content.token)
  }

  /** The buffer is patched with the next id and token. */
  method Prepare(net: Net, message: Message, token: string, i: nat)
    requires net.batch.Valid() && i < |net.batch.tokens| && token == net.batch.tokens[i]
    requires message.Valid() && Fitting(net, message)
    requires net.Valid() && net.model.phase == Sending(i) && Primed(net, message)
    modifies message, message.message
    ensures Holds(net.batch.tokens, net.held, message.content.token)
    ensures message.Valid() && message.message == old(message.message) && Fitting(net, message)
    ensures !Tokens.Valid(token) ==> message.content.token == old(message.content.token)
    ensures NoteFor(net.batch, i, message.content) && message.message[..] == Encode(message.content)
  {
    hide Run, Matches, HistoryOk, Labelled;
    HeldNow(net.batch, net.cfg, net.schedule[..net.clock], net.links, net.held, net.carried);
    message.SetId(i);
    var ok := message.SetTokenHex(token);
  }

  /** The notification without its token and id. */
  datatype Payload = Payload(json: seq<byte>, expiry: int, priority: byte)

  datatype SendResult = NotConnected | TooLarge | Pending | Finished(outcome: Outcome)

  /** The head of the loop in `apn_send`: close, then connect again.  None if the schedule ends. */
  method Reconnect(ctx: Context, net: Net) returns (connected: Option<bool>)
    requires ctx.Valid() && net.Valid() && net.model.phase.Reconnecting?
    modifies ctx`sock, ctx`ssl, net
    ensures ctx.Valid() && net.Valid() && net.clock >= old(net.clock)
    ensures connected.None? ==> net.clock == |net.schedule| && net.model.phase.Reconnecting?
    ensures connected == Some(true) ==>
              && net.model.phase == Sending(net.model.start)
              && |net.links| == old(|net.links|) + 1 && net.links[old(|net.links|)] == NEW_LINK
              && ctx.sock != -1 && ctx.ssl == Some(old(|net.links|))
    ensures connected == Some(false) ==> net.model.phase == Done(Failure(ConnectFailed))
    ensures net.held == HeldAfter(net.batch.tokens, net.model, old(net.held))
    ensures var s, s' := old(net.model), net.model;
            s'.start == s.start && s'.autoReconnect == s.autoReconnect && s'.invalid == s.invalid
  {
    hide Run, Matches, HistoryOk, Step, Labelled, Tokens.Valid;
    ctx.Close();
    var outcome := net.AwaitConnect();
    if outcome == None {
      return None;
    }
    var ok := ctx.Connect(outcome.value, |net.links|);
    ConnectStep(net.cfg, net.model, outcome.value);
    net.Open(outcome.value);
    return Some(ok);
  }

  /** `apn_send`.  Unless the schedule ends first, the run it takes part in is the run of the step
      machine, the result is the machine's, the invalid tokens are those at the machine's recorded
      indices, and the gateway has accepted exactly the notifications in the machine's log. */
  method Send(ctx: Context, net: Net, payload: Payload, tokens: seq<string>)
    returns (result: SendResult, invalidTokens: seq<string>)
    requires ctx.Valid() && ctx.reconnect == net.reconnect
    requires ctx.ssl.Some? ==> ctx.ssl.value == 0
    requires net.Valid() && net.clock == 0 && net.model == Start() && tokens == net.batch.tokens
    requires var batch := Batch(tokens, payload.json, payload.expiry, payload.priority);
             batch.Valid() ==> net.batch == batch
    modifies ctx`sock, ctx`ssl, net
    ensures ctx.Valid() && net.Valid()
    ensures old(ctx.ssl.None? || ctx.feedback) <==> result.NotConnected?
    ensures result.TooLarge? <==>
            !result.NotConnected? && !Batch(tokens, payload.json, payload.expiry, payload.priority).Valid()
    ensures result.TooLarge? ==> forall n: Notification | n.payload == payload.json :: !n.Fits()
    ensures result.NotConnected? || result.TooLarge? ==>
              invalidTokens == [] && net.clock == 0 && ctx.sock == old(ctx.sock) && ctx.ssl == old(ctx.ssl)
    ensures net.model == Run(net.cfg, Start(), net.schedule[..net.clock])
    ensures Matches(net.batch, net.Now(), net.model.conns, net.model.log)
    ensures HistoryOk(net.batch, net.cfg, net.schedule, net.history) && |net.history| == net.clock
    ensures Labelled(net.batch, net.cfg, net.schedule[..net.clock], net.links, net.held, net.carried)
    ensures result.Pending? ==> net.clock == |net.schedule| && !net.model.phase.Done?
    ensures result.Finished? ==> net.model.phase == Done(result.outcome)
    ensures Records(tokens, net.model.invalid, invalidTokens)
  {
    hide Run, Matches, HistoryOk, Encode, Decode, Step, Records, Message.Valid, Labelled;
    RecordsNone(tokens);
    if ctx.ssl.None? || ctx.feedback {
      return SendResult.NotConnected, [];
    }
    if |payload.json| > PAYLOAD_MAX_SIZE {
      return TooLarge, [];
    }
    var message := new Message(payload.json, payload.expiry, payload.priority);
    NothingHeld(net);
    result, invalidTokens := SendRounds(ctx, net, message, tokens);
  }

  lemma NothingHeld(net: Net)
    requires net.Valid() && net.clock == 0
    ensures net.held == HeldAfter(net.batch.tokens, Start(), -1) && net.model == Start()
  {
    assert net.schedule[..0] == [];
  }

  /** The loop of `apn_send`, round after round. */
  method SendRounds(ctx: Context, net: Net, message: Message, tokens: seq<string>)
    returns (result: SendResult, invalidTokens: seq<string>)
    requires ctx.Valid() && ctx.reconnect == net.reconnect && ctx.ssl == Some(0)
    requires net.Valid() && net.clock == 0 && net.model == Start() && tokens == net.batch.tokens
    requires message.Valid() && Fitting(net, message) && Primed(net, message)
    modifies ctx`sock, ctx`ssl, net, message, message.message
    ensures ctx.Valid() && net.Valid()
    ensures result.Pending? || result.Finished?
    ensures result.Pending? ==> net.clock == |net.schedule| && !net.model.phase.Done?
    ensures result.Finished? ==> net.model.phase == Done(result.outcome)
    ensures Records(tokens, net.model.invalid, invalidTokens)
  {
    hide Run, Matches, HistoryOk, Encode, Decode, Step, EndRound, RoundEnded, Records, Copied, ErrorOf, Retryable,
      Message.Valid, Labelled, Tokens.Valid;
    RecordsNone(tokens);
    invalidTokens := [];
    var startIndex, autoReconnect := 0, false;
    while true
      invariant ctx.Valid() && net.Valid() && message.Valid()
      invariant message.message == old(message.message) && Fitting(net, message) && Primed(net, message)
      invariant startIndex < |tokens| && net.model.start == startIndex
      invariant net.model.autoReconnect == autoReconnect
      invariant net.model.phase == if autoReconnect then Reconnecting else Sending(startIndex)
      invariant !autoReconnect ==> ctx.sock != -1 && ctx.ssl == Some(|net.links| - 1)
      invariant Records(tokens, net.model.invalid, invalidTokens)
      decreases |net.schedule| - net.clock
    {
      if autoReconnect {
        var connected := Reconnect(ctx, net);
        if connected.None? {
          return Pending, invalidTokens;
        }
        if !connected.value {
          return Finished(Failure(ConnectFailed)), invalidTokens;
        }
      }
      ghost var s := net.model;
      var round, before, reset := SendBinaryMessage(ctx, net, message, tokens, startIndex);
      if round.Sent? {
        return Finished(Success), invalidTokens;
      }
      if round.Blocked? {
        return Pending, invalidTokens;
      }
      var error := ErrorOf(round.code, round.errno);
      RoundEndedEffect(net.cfg, s, before, net.model, error, round.index, reset, tokens, invalidTokens);
      if error.TokenInvalid? {
        invalidTokens := invalidTokens + [Copied(tokens[round.index])];
      }
      startIndex := if error.TokenInvalid? then round.index + 1 else round.index;
      if startIndex < |tokens| {
        if ctx.reconnect && Retryable(error) {
          autoReconnect := true;
        }
      } else if error.TokenInvalid? {
        return Finished(Success), invalidTokens;
      } else {
        return Finished(Failure(error)), invalidTokens;
      }
    }
  }
}
