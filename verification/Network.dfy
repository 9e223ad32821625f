/** The network at byte level: what each connection carried, and a gateway that reads
    those bytes and answers with error packets.  A schedule of protocol events drives
    it; `model` is the state of the step machine after the events used up so far. */
module Network {
  import opened Bytes
  import opened Frame
  import opened Protocol
  import opened Carriers
  import Tokens

  /** What `apn_send` is asked to deliver. */
  datatype Batch = Batch(tokens: seq<string>, payload: seq<byte>, expiry: int, priority: byte) {
    predicate Valid() {
      && 0 < |tokens| < TWO_32 - 1
      && |payload| <= 2048
    }
  }

  /** A notification for the token with index `j`.  A valid token is the one it carries; a malformed
      one leaves in the buffer whatever token was there. */
  ghost predicate NoteFor(b: Batch, j: nat, n: Notification) {
    && j < |b.tokens|
    && |n.token| == Tokens.BINARY_SIZE
    && (Tokens.Valid(b.tokens[j]) ==> n.token == Tokens.Binary(b.tokens[j]))
    && n == Notification(n.token, b.payload, j, b.expiry % TWO_32, b.priority)
  }

  ghost predicate NotesFor(b: Batch, ids: seq<nat>, ns: seq<Notification>) {
    |ns| == |ids| && forall k | 0 <= k < |ids| :: NoteFor(b, ids[k], ns[k])
  }

  // ----- error packets: command 8, status, message id

  function ErrorPacket(status: byte, id: nat): (s: seq<byte>)
    requires id < TWO_32
    ensures |s| == 6
  {
    [8, status] + U32(id)
  }

  /** `__apn_parse_apns_error`: the error code and index left after parsing, given those before. */
  function ParseError(packet: seq<byte>, code: nat, index: nat): (nat, nat)
    requires |packet| == 6
  {
    if packet[0] != 8 then (code, index)
    else if packet[1] == INVALID_TOKEN then (packet[1], FromU32(packet[2..]))
    else (packet[1], index)
  }

  /** Only status 8 hands its id on. */
  lemma ParseErrorRoundTrip(status: byte, id: nat, code: nat, index: nat)
    requires id < TWO_32
    ensures ParseError(ErrorPacket(status, id), code, index) == (status, if status == INVALID_TOKEN then id else index)
  {
    U32RoundTrip(id);
    assert ErrorPacket(status, id)[2..] == U32(id);
  }

  /** and every packet with command 8 is the error packet of its status and id. */
  lemma PacketInverse(packet: seq<byte>)
    requires |packet| == 6 && packet[0] == 8
    ensures packet == ErrorPacket(packet[1], FromU32(packet[2..]))
  {
    U32Inverse(packet[2..]);
  }

  // ----- connections

  /** `packet` is the error packet on its way to the client, empty if there is none. */
  datatype Link = Link(bytes: seq<byte>, taken: nat, stopped: bool, packet: seq<byte>, torn: bool)

  const NEW_LINK := Link([], 0, false, [], false)

  /** The gateway reads from the bytes exactly the frames of the wire.  As long as no write failed
      the bytes are nothing but these frames; behind a failed write there is a piece of one more. */
  ghost predicate Carries(b: Batch, bytes: seq<byte>, wire: seq<nat>, torn: bool) {
    && NotesFor(b, wire, Decode(bytes))
    && (forall k | 0 <= k < |Decode(bytes)| :: Decode(bytes)[k].Fits())
    && Stream(Decode(bytes)) <= bytes
    && (!torn ==> |Stream(Decode(bytes))| == |bytes|)
  }

  ghost predicate LinkOk(b: Batch, l: Link, c: Conn)
    requires b.Valid()
  {
    && Carries(b, l.bytes, c.wire, l.torn)
    && l.taken == c.taken <= |c.wire|
    && l.torn == c.torn
    && l.stopped == c.gate.Stopped?
    && (c.gate.Stopped? ==> 1 <= c.gate.status <= 255 && c.gate.id < |b.tokens|)
    && (c.unread ==> c.gate.Stopped?)
    && l.packet == (if c.unread then ErrorPacket(c.gate.status, c.gate.id) else [])
  }

  lemma CarriesNotes(b: Batch, bytes: seq<byte>, wire: seq<nat>, torn: bool)
    requires Carries(b, bytes, wire, torn)
    ensures NotesFor(b, wire, Decode(bytes))
  {
  }

  /** A complete write adds one frame, a failed one adds none. */
  lemma CarriesWrite(b: Batch, bytes: seq<byte>, wire: seq<nat>, j: nat, n: Notification)
    requires b.Valid() && NoteFor(b, j, n) && Carries(b, bytes, wire, false)
    ensures Carries(b, bytes + Encode(n), wire + [j], false)
    ensures Decode(bytes + Encode(n)) == Decode(bytes) + [n]
  {
    hide Encode, Stream, Decode;
    var ns := Decode(bytes);
    var all := ns + [n];
    StreamSnoc(ns, n);
    DecodeNothing();
    DecodeStream(all, []);
    assert bytes + Encode(n) == Stream(all) + [];
  }

  lemma CarriesTorn(b: Batch, bytes: seq<byte>, wire: seq<nat>, n: Notification, k: nat)
    requires b.Valid() && Carries(b, bytes, wire, false) && n.Fits() && k < |Encode(n)|
    ensures Carries(b, bytes + Encode(n)[..k], wire, true)
    ensures Decode(bytes + Encode(n)[..k]) == Decode(bytes)
  {
    hide Encode, Decode, Stream;
    DecodePartial(n, k);
    assert Stream(Decode(bytes)) == bytes;
    DecodeStream(Decode(bytes), Encode(n)[..k]);
  }

  /** Every frame on any connection declares a 32-byte token, so a gateway that complains about
      the token size (status 5) only when it is wrong never does. */
  lemma TokenSizeAlwaysRight(b: Batch, l: Link, c: Conn)
    requires b.Valid() && LinkOk(b, l, c)
    ensures forall k | 0 <= k < |Decode(l.bytes)| :: |Decode(l.bytes)[k].token| == 32
  {
    hide Decode;
    assert forall k | 0 <= k < |Decode(l.bytes)| :: NoteFor(b, c.wire[k], Decode(l.bytes)[k]);
  }

  // ----- the two parties on bytes, and their refinement of the step machine

  /** All connections, and what the gateway accepted on them. */
  datatype Wires = Wires(links: seq<Link>, accepted: seq<Notification>)

  ghost predicate Matches(b: Batch, w: Wires, conns: seq<Conn>, log: seq<nat>) {
    && b.Valid()
    && |w.links| == |conns| > 0
    && (forall c | 0 <= c < |w.links| :: LinkOk(b, w.links[c], conns[c]))
    && NotesFor(b, log, w.accepted)
  }

  /** The gateway on raw bytes: it reads the next complete frame of a connection, if there is one,
      and accepts it or answers with its id; or it gives the connection up with another status. */
  function GatewayStep(w: Wires, e: Event): Wires
    requires GatewayEvent(e)
  {
    if e.conn >= |w.links| || w.links[e.conn].stopped then w
    else
      var link := w.links[e.conn];
      match e
      case Judge(c, accept) =>
        var frames := Decode(link.bytes);
        if link.taken >= |frames| || frames[link.taken].id >= TWO_32 then w
        else if accept then
          Wires(w.links[c := link.(taken := link.taken + 1)], w.accepted + [frames[link.taken]])
        else
          w.(links := w.links[c := link.(stopped := true, packet := ErrorPacket(INVALID_TOKEN, frames[link.taken].id))])
      case Halt(c, status) =>
        if 1 <= status <= 255 && status != INVALID_TOKEN then
          w.(links := w.links[c := link.(stopped := true, packet := ErrorPacket(status, 0))])
        else w
      case _ => w
  }

  /** One connection changes on both levels, the log does not. */
  lemma MatchesUpdate(b: Batch, w: Wires, conns: seq<Conn>, log: seq<nat>, c: nat, link: Link, conn: Conn)
    requires Matches(b, w, conns, log) && c < |w.links| && LinkOk(b, link, conn)
    ensures Matches(b, w.(links := w.links[c := link]), conns[c := conn], log)
  {
  }

  lemma JudgeRefines(b: Batch, cfg: Config, w: Wires, s: State, c: nat, accept: bool)
    requires Matches(b, w, s.conns, s.log)
    ensures var s' := Step(cfg, s, Judge(c, accept));
            Matches(b, GatewayStep(w, Judge(c, accept)), s'.conns, s'.log)
  {
    hide Carries, Decode, ErrorPacket;
    if c < |w.links| {
      var link, conn := w.links[c], s.conns[c];
      assert LinkOk(b, link, conn);
      if !link.stopped {
        assert NotesFor(b, conn.wire, Decode(link.bytes)) by { CarriesNotes(b, link.bytes, conn.wire, link.torn); }
        if conn.taken < |conn.wire| {
          var id := conn.wire[conn.taken];
          assert NoteFor(b, id, Decode(link.bytes)[conn.taken]);
          if accept {
            MatchesUpdate(b, w, s.conns, s.log, c, link.(taken := link.taken + 1), conn.(taken := conn.taken + 1));
          } else {
            MatchesUpdate(b, w, s.conns, s.log, c, link.(stopped := true, packet := ErrorPacket(INVALID_TOKEN, id)),
                          conn.(gate := Stopped(INVALID_TOKEN, id), unread := true));
          }
        }
      }
    }
  }

  lemma HaltRefines(b: Batch, cfg: Config, w: Wires, s: State, c: nat, status: int)
    requires Matches(b, w, s.conns, s.log)
    ensures var s' := Step(cfg, s, Halt(c, status));
            Matches(b, GatewayStep(w, Halt(c, status)), s'.conns, s'.log)
  {
    if c < |w.links| {
      var link, conn := w.links[c], s.conns[c];
      assert LinkOk(b, link, conn);
      if !link.stopped && 1 <= status <= 255 && status != INVALID_TOKEN {
        MatchesUpdate(b, w, s.conns, s.log, c, link.(stopped := true, packet := ErrorPacket(status, 0)),
                      conn.(gate := Stopped(status, 0), unread := true));
      }
    }
  }

  /** The byte-level gateway refines the gateway of the step machine, and leaves the client alone. */
  lemma GatewayRefines(b: Batch, cfg: Config, w: Wires, s: State, e: Event)
    requires Matches(b, w, s.conns, s.log) && GatewayEvent(e)
    ensures var s' := Step(cfg, s, e);
            && Matches(b, GatewayStep(w, e), s'.conns, s'.log)
            && s' == s.(conns := s'.conns, log := s'.log) && |s'.conns| == |s.conns|
  {
    match e
    case Judge(c, accept) => JudgeRefines(b, cfg, w, s, c, accept);
    case Halt(c, status) => HaltRefines(b, cfg, w, s, c, status);
  }

  /** What can happen to a client that waits in `select`, for writing too if `writing`. */
  predicate Ready(link: Link, writing: bool, e: Event) {
    match e
    case Write(_) => writing && !link.torn
    case WriteFail(_, error) => writing && WriteError(error)
    case SelectFail(code) => code != EINTR
    case Read => link.packet != []
    case ReadFail(error) => ReadError(error)
    case Quiet => !writing
    case _ => false
  }

  lemma ReadyEnabled(b: Batch, cfg: Config, w: Wires, s: State, e: Event)
    requires Matches(b, w, s.conns, s.log) && s.phase.Sending? && !GatewayEvent(e)
    ensures Enabled(cfg, s, e) <==> Ready(w.links[|w.links| - 1], s.phase.i < cfg.count, e)
  {
    hide Carries, NotesFor;
    assert LinkOk(b, w.links[|w.links| - 1], Current(s));
  }

  /** The bytes `SSL_write` took of the current frame: all of it, or less and the connection is torn. */
  function Wrote(link: Link, message: seq<byte>, k: nat, fault: bool): Link
    requires k <= |message|
  {
    link.(bytes := link.bytes + message[..k], torn := fault)
  }

  lemma WroteRefines(b: Batch, link: Link, conn: Conn, j: nat, n: Notification, k: nat, fault: bool)
    requires b.Valid() && LinkOk(b, link, conn) && NoteFor(b, j, n)
    requires k <= |Encode(n)| && (fault <==> k < |Encode(n)|)
    requires link.torn ==> k == 0
    ensures LinkOk(b, Wrote(link, Encode(n), k, fault),
                   if fault then conn.(torn := true) else conn.(wire := conn.wire + [j]))
    ensures Decode(Wrote(link, Encode(n), k, fault).bytes) == Decode(link.bytes) + if fault then [] else [n]
  {
    hide Decode, Encode, Stream;
    var message := Encode(n);
    if !fault {
      assert message[..k] == message;
      CarriesWrite(b, link.bytes, conn.wire, j, n);
    } else if link.torn {
      assert link.bytes + message[..k] == link.bytes;
    } else {
      CarriesTorn(b, link.bytes, conn.wire, n, k);
    }
  }

  lemma WriteEffect(cfg: Config, s: State, e: Event)
    requires Enabled(cfg, s, e) && (e.Write? || e.WriteFail?)
    ensures var s' := Step(cfg, s, e);
            && s'.log == s.log
            && s'.conns == s.conns[|s.conns| - 1 := if e.WriteFail? then Current(s).(torn := true)
                                                    else Current(s).(wire := Current(s).wire + [s.phase.i])]
  {
  }

  lemma FreshLink(b: Batch)
    requires b.Valid()
    ensures LinkOk(b, NEW_LINK, FRESH)
  {
    DecodeNothing();
  }

  lemma ConnectStep(cfg: Config, s: State, outcome: ConnectOutcome)
    requires Enabled(cfg, s, Connect(outcome))
    ensures Step(cfg, s, Connect(outcome)) ==
            if outcome.Connected? then s.(conns := s.conns + [FRESH], phase := Sending(s.start))
            else s.(phase := Done(Failure(ConnectFailed)))
  {
  }

  /** What was on the wires when each event of the schedule came up, `history` for the first
      of them. */
  ghost predicate HistoryOk(b: Batch, cfg: Config, schedule: seq<Event>, history: seq<Wires>) {
    && |history| <= |schedule|
    && forall k | 0 <= k < |history| ::
         var s := Run(cfg, Start(), schedule[..k]); Matches(b, history[k], s.conns, s.log)
  }

  lemma HistoryExtend(b: Batch, cfg: Config, schedule: seq<Event>, history: seq<Wires>, w: Wires)
    requires HistoryOk(b, cfg, schedule, history) && |history| < |schedule|
    requires var s := Run(cfg, Start(), schedule[..|history|]); Matches(b, w, s.conns, s.log)
    ensures HistoryOk(b, cfg, schedule, history + [w])
  {
    hide Run, Matches;
  }

  /** Which tokens the frames carry, and which one is in the buffer, after the events used up. */
  ghost predicate Labelled(b: Batch, cfg: Config, events: seq<Event>, links: seq<Link>, held: int, carried: seq<seq<int>>) {
    && held == Held(b.tokens, cfg, events)
    && carried == Carried(b.tokens, cfg, events)
    && |carried| == |links| > 0
    && forall c | 0 <= c < |links| :: FramesCarry(b.tokens, carried[c], Decode(links[c].bytes))
  }

  lemma LabelsStart(b: Batch, cfg: Config)
    ensures Labelled(b, cfg, [], [NEW_LINK], HeldAfter(b.tokens, Start(), -1), [[]])
  {
    DecodeNothing();
  }

  /** An event that puts nothing on the wires. */
  lemma LabelsKept(b: Batch, cfg: Config, schedule: seq<Event>, k: nat, links: seq<Link>, links': seq<Link>,
                   held: int, carried: seq<seq<int>>)
    requires k < |schedule| && Labelled(b, cfg, schedule[..k], links, held, carried)
    requires var s, e := Run(cfg, Start(), schedule[..k]), schedule[k];
             Enabled(cfg, s, e) ==> !e.Write? && (e.Connect? ==> !e.outcome.Connected?)
    requires |links'| == |links| && forall c | 0 <= c < |links| :: Decode(links'[c].bytes) == Decode(links[c].bytes)
    ensures var s' := Step(cfg, Run(cfg, Start(), schedule[..k]), schedule[k]);
            Labelled(b, cfg, schedule[..k + 1], links', HeldAfter(b.tokens, s', held), carried)
  {
    hide Step, Run, Decode, HeldAfter, FramesCarry, Held, Carried;
    Extend(b.tokens, cfg, schedule, k);
  }

  /** A frame that carries the token in the buffer. */
  lemma LabelsWrite(b: Batch, cfg: Config, schedule: seq<Event>, k: nat, links: seq<Link>, link: Link,
                    held: int, carried: seq<seq<int>>, n: Notification)
    requires k < |schedule| && Labelled(b, cfg, schedule[..k], links, held, carried)
    requires schedule[k].Write? && Enabled(cfg, Run(cfg, Start(), schedule[..k]), schedule[k])
    requires Holds(b.tokens, held, n.token) && Decode(link.bytes) == Decode(links[|links| - 1].bytes) + [n]
    ensures |carried| == |links|
    ensures var s' := Step(cfg, Run(cfg, Start(), schedule[..k]), schedule[k]);
            var last := |links| - 1;
            Labelled(b, cfg, schedule[..k + 1], links[last := link], HeldAfter(b.tokens, s', held),
                     carried[last := carried[last] + [held]])
  {
    hide Step, Run, Decode, HeldAfter, FramesCarry, Held, Carried, Holds;
    Extend(b.tokens, cfg, schedule, k);
    FramesCarrySnoc(b.tokens, carried[|links| - 1], Decode(links[|links| - 1].bytes), held, n);
  }

  lemma LabelsOpen(b: Batch, cfg: Config, schedule: seq<Event>, k: nat, links: seq<Link>, held: int, carried: seq<seq<int>>)
    requires k < |schedule| && Labelled(b, cfg, schedule[..k], links, held, carried)
    requires schedule[k] == Connect(Connected) && Enabled(cfg, Run(cfg, Start(), schedule[..k]), schedule[k])
    ensures var s' := Step(cfg, Run(cfg, Start(), schedule[..k]), schedule[k]);
            Labelled(b, cfg, schedule[..k + 1], links + [NEW_LINK], HeldAfter(b.tokens, s', held), carried + [[]])
  {
    hide Step, Run, Decode, HeldAfter, Held, Carried;
    DecodeNothing();
    Extend(b.tokens, cfg, schedule, k);
    hide FramesCarry;
    assert FramesCarry(b.tokens, [], []);
  }

  /** The gateway puts nothing on the wires. */
  lemma GatewayBytes(w: Wires, e: Event)
    requires GatewayEvent(e)
    ensures |GatewayStep(w, e).links| == |w.links|
    ensures forall c | 0 <= c < |w.links| :: GatewayStep(w, e).links[c].bytes == w.links[c].bytes
  {
    hide Decode;
  }

  lemma HeldNow(b: Batch, cfg: Config, events: seq<Event>, links: seq<Link>, held: int, carried: seq<seq<int>>)
    requires Labelled(b, cfg, events, links, held, carried)
    ensures held == HeldAfter(b.tokens, Run(cfg, Start(), events), held)
  {
  }

  class Net {
    const batch: Batch
    const reconnect: bool
    const schedule: seq<Event>
    var clock: nat
    var links: seq<Link>
    var accepted: seq<Notification>
    ghost var model: State
    ghost var history: seq<Wires>
    ghost var held: int
    ghost var carried: seq<seq<int>>

    ghost const cfg: Config := Config(|batch.tokens|, reconnect)

    ghost predicate Valid()
      reads this
    {
      && batch.Valid()
      && |links| == |model.conns| > 0
      && clock <= |schedule|
      && model == Run(cfg, Start(), schedule[..clock])
      && |history| == clock && HistoryOk(batch, cfg, schedule, history)
      && Labelled(batch, cfg, schedule[..clock], links, held, carried)
      && Matches(batch, Wires(links, accepted), model.conns, model.log)
    }

    ghost function Now(): Wires
      reads this
    {
      Wires(links, accepted)
    }

    /** A context freshly connected: one connection, nothing sent. */
    constructor (batch: Batch, reconnect: bool, schedule: seq<Event>)
      requires batch.Valid()
      ensures Valid() && clock == 0 && model == Start()
      ensures this.batch == batch && this.reconnect == reconnect && this.schedule == schedule
    {
      this.batch, this.reconnect, this.schedule := batch, reconnect, schedule;
      clock, links, accepted, model, history := 0, [NEW_LINK], [], Start(), [];
      held, carried := HeldAfter(batch.tokens, Start(), -1), [[]];
      LabelsStart(batch, Config(|batch.tokens|, reconnect));
    }

    method Gateway()
      requires Valid() && clock < |schedule| && GatewayEvent(schedule[clock])
      modifies this
      ensures Valid() && clock == old(clock) + 1 && model == Step(cfg, old(model), schedule[old(clock)])
      ensures Wires(links, accepted) == old(GatewayStep(Wires(links, accepted), schedule[clock]))
      ensures model == old(model).(conns := model.conns, log := model.log) && |links| == old(|links|)
      ensures held == HeldAfter(batch.tokens, model, old(held))
    {
      hide Run, Carries, HistoryOk, Labelled, Decode, HeldAfter;
      HistoryExtend(batch, cfg, schedule, history, Now());
      history := history + [Now()];
      RunExtend(cfg, Start(), schedule, clock);
      GatewayRefines(batch, cfg, Wires(links, accepted), model, schedule[clock]);
      var w := GatewayStep(Wires(links, accepted), schedule[clock]);
      GatewayBytes(Wires(links, accepted), schedule[clock]);
      LabelsKept(batch, cfg, schedule, clock, links, w.links, held, carried);
      links, accepted := w.links, w.accepted;
      model, clock := Step(cfg, model, schedule[clock]), clock + 1;
      held := HeldAfter(batch.tokens, model, held);
    }

    /** An event that cannot happen now passes without effect. */
    method Skip()
      requires Valid() && clock < |schedule| && !Enabled(cfg, model, schedule[clock])
      modifies `clock, `history, `held
      ensures Valid() && clock == old(clock) + 1
      ensures held == HeldAfter(batch.tokens, model, old(held))
    {
      hide Run, Carries, HistoryOk, Labelled, Decode, HeldAfter;
      LabelsKept(batch, cfg, schedule, clock, links, links, held, carried);
      held := HeldAfter(batch.tokens, model, held);
      HistoryExtend(batch, cfg, schedule, history, Now());
      history := history + [Now()];
      RunExtend(cfg, Start(), schedule, clock);
      clock := clock + 1;
    }

    /** `select`: the gateway acts until something concerns the client, whose socket is watched for
        writing too if `writing`.  The call is repeated if it was interrupted, and while there is
        something to write also if nothing happened (`Quiet`).  None if the schedule ends first. */
    method Select(writing: bool) returns (event: Option<Event>)
      requires Valid() && model.phase.Sending? && (writing <==> model.phase.i < |batch.tokens|)
      modifies this
      ensures Valid() && clock >= old(clock)
      ensures model == old(model).(conns := model.conns, log := model.log) && |links| == old(|links|)
      ensures event.None? ==> clock == |schedule|
      ensures event.Some? ==> clock < |schedule| && event.value == schedule[clock] && !GatewayEvent(event.value)
      ensures event.Some? ==> Enabled(cfg, model, event.value) && (event.value.Quiet? ==> !writing)
      ensures event.Some? && event.value.SelectFail? ==> event.value.code != EINTR
      ensures held == HeldAfter(batch.tokens, model, old(held))
    {
      hide Run, Matches, HistoryOk, Step, Labelled, Tokens.Valid;
      HeldNow(batch, cfg, schedule[..clock], links, held, carried);
      while clock < |schedule|
        invariant Valid() && clock >= old(clock)
        invariant model == old(model).(conns := model.conns, log := model.log) && |links| == old(|links|)
        invariant held == HeldAfter(batch.tokens, model, old(held))
      {
        var e := schedule[clock];
        if GatewayEvent(e) {
          Gateway();
        } else {
          ReadyEnabled(batch, cfg, Wires(links, accepted), model, e);
          if Ready(links[|links| - 1], writing, e) {
            return Some(e);
          }
          Skip();
        }
      }
      return None;
    }

    /** Waiting for the outcome of a new connection attempt. */
    method AwaitConnect() returns (outcome: Option<ConnectOutcome>)
      requires Valid() && model.phase.Reconnecting?
      modifies this
      ensures Valid() && clock >= old(clock)
      ensures model == old(model).(conns := model.conns, log := model.log) && |links| == old(|links|)
      ensures outcome.None? ==> clock == |schedule|
      ensures outcome.Some? ==> clock < |schedule| && schedule[clock] == Connect(outcome.value)
      ensures held == HeldAfter(batch.tokens, model, old(held))
    {
      hide Run, Matches, HistoryOk, Step, Labelled, Tokens.Valid;
      while clock < |schedule|
        invariant Valid() && clock >= old(clock)
        invariant model == old(model).(conns := model.conns, log := model.log) && |links| == old(|links|)
        invariant held == HeldAfter(batch.tokens, model, old(held))
      {
        var e := schedule[clock];
        if GatewayEvent(e) {
          Gateway();
        } else if e.Connect? {
          return Some(e.outcome);
        } else {
          Skip();
        }
      }
      return None;
    }

    /** The attempt is over; a successful one opens a connection without history. */
    method Open(outcome: ConnectOutcome)
      requires Valid() && model.phase.Reconnecting? && clock < |schedule| && schedule[clock] == Connect(outcome)
      modifies this
      ensures Valid() && clock == old(clock) + 1 && model == Step(cfg, old(model), Connect(outcome))
      ensures links == if outcome.Connected? then old(links) + [NEW_LINK] else old(links)
      ensures held == HeldAfter(batch.tokens, model, old(held))
    {
      hide Run, Carries, HistoryOk, Labelled, Decode, HeldAfter;
      HistoryExtend(batch, cfg, schedule, history, Now());
      history := history + [Now()];
      RunExtend(cfg, Start(), schedule, clock);
      ConnectStep(cfg, model, outcome);
      FreshLink(batch);
      if outcome.Connected? {
        LabelsOpen(batch, cfg, schedule, clock, links, held, carried);
        links, carried := links + [NEW_LINK], carried + [[]];
      } else {
        LabelsKept(batch, cfg, schedule, clock, links, links, held, carried);
      }
      model, clock := Step(cfg, model, Connect(outcome)), clock + 1;
      held := HeldAfter(batch.tokens, model, held);
    }

    /** A fault or a time-out of the client's own calls. */
    method Pass()
      requires Valid() && clock < |schedule| && Enabled(cfg, model, schedule[clock])
      requires var e := schedule[clock]; e.SelectFail? || e.ReadFail? || e.Quiet?
      modifies `clock, `model, `history, `held
      ensures |links| == old(|links|)
      ensures Valid() && clock == old(clock) + 1 && model == Step(cfg, old(model), schedule[old(clock)])
      ensures held == HeldAfter(batch.tokens, model, old(held))
    {
      hide Run, Carries, HistoryOk, Labelled, Decode, HeldAfter;
      LabelsKept(batch, cfg, schedule, clock, links, links, held, carried);
      HistoryExtend(batch, cfg, schedule, history, Now());
      history := history + [Now()];
      RunExtend(cfg, Start(), schedule, clock);
      model, clock := Step(cfg, model, schedule[clock]), clock + 1;
      held := HeldAfter(batch.tokens, model, held);
    }

    /** `apn_ssl_read`: the client takes the error packet. */
    method Receive() returns (packet: seq<byte>)
      requires Valid() && clock < |schedule| && schedule[clock] == Read && Enabled(cfg, model, Read)
      modifies this
      ensures |links| == old(|links|)
      ensures Valid() && clock == old(clock) + 1 && model == Step(cfg, old(model), Read)
      ensures old(model).conns != [] && Current(old(model)).gate.Stopped?
      ensures var gate := Current(old(model)).gate;
              1 <= gate.status <= 255 && gate.id < |batch.tokens| < TWO_32 && packet == ErrorPacket(gate.status, gate.id)
      ensures held == HeldAfter(batch.tokens, model, old(held))
    {
      hide Run, Carries, HistoryOk, Labelled, Decode, HeldAfter;
      HistoryExtend(batch, cfg, schedule, history, Now());
      history := history + [Now()];
      RunExtend(cfg, Start(), schedule, clock);
      var last := |links| - 1;
      assert LinkOk(batch, links[last], Current(model));
      packet := links[last].packet;
      MatchesUpdate(batch, Wires(links, accepted), model.conns, model.log, last, links[last].(packet := []),
                    Current(model).(unread := false));
      LabelsKept(batch, cfg, schedule, clock, links, links[last := links[last].(packet := [])], held, carried);
      links := links[last := links[last].(packet := [])];
      model, clock := Step(cfg, model, Read), clock + 1;
      held := HeldAfter(batch.tokens, model, held);
    }

    /** `apn_ssl_write`: the loop around `SSL_write`, which takes `chunks[0]`, `chunks[1]`, ... bytes, zero
        where it asks to be called again.  A write that is to fail stops short of the last byte, and a
        connection whose write failed takes nothing any more. */
    method SslWrite(message: seq<byte>, chunks: seq<nat>, fault: bool) returns (written: int, ghost k: nat)
      requires links != [] && message != [] && (links[|links| - 1].torn ==> fault)
      modifies `links
      ensures k <= |message| && (fault <==> k < |message|)
      ensures written == if fault then -1 else |message|
      ensures old(links[|links| - 1].torn) ==> k == 0
      ensures links == old(links[|links| - 1 := Wrote(links[|links| - 1], message, k, fault)])
    {
      var last := |links| - 1;
      var torn := links[last].torn;
      var length: nat, total: nat, c: nat := |message|, 0, 0;
      ghost var link := links[last];
      assert link.bytes + message[..0] == link.bytes;
      while length > 0
        invariant length + total == |message| && c <= |chunks|
        invariant fault ==> length > 0
        invariant torn ==> total == 0
        invariant links == old(links)[last := link.(bytes := link.bytes + message[..total])]
        decreases length, |chunks| - c
      {
        var bytesWritten: nat := 0;
        if torn || (fault && c == |chunks|) {
          links := links[last := links[last].(torn := true)];
          return -1, total;
        } else if c == |chunks| {
          bytesWritten := length;
        } else {
          var most := if fault then length - 1 else length;
          bytesWritten := if chunks[c] <= most then chunks[c] else most;
          c := c + 1;
        }
        if bytesWritten <= 0 {
          continue;
        }
        links := links[last := links[last].(bytes := links[last].bytes + message[total..total + bytesWritten])];
        assert message[..total + bytesWritten] == message[..total] + message[total..total + bytesWritten];
        assert link.bytes + message[..total] + message[total..total + bytesWritten] ==
               link.bytes + message[..total + bytesWritten];
        total := total + bytesWritten;
        length := length - bytesWritten;
      }
      return total, total;
    }

    /** The current frame is written, or the write fails and the frame is not delivered. */
    method Write(message: seq<byte>, ghost n: Notification) returns (written: int, error: Error)
      requires Valid() && clock < |schedule| && Enabled(cfg, model, schedule[clock])
      requires schedule[clock].Write? || schedule[clock].WriteFail?
      requires NoteFor(batch, model.phase.i, n) && Holds(batch.tokens, held, n.token) && message == Encode(n)
      modifies this
      ensures |links| == old(|links|)
      ensures Valid() && clock == old(clock) + 1 && model == Step(cfg, old(model), schedule[old(clock)])
      ensures schedule[old(clock)].Write? ==> written == |message|
      ensures schedule[old(clock)].WriteFail? ==> written == -1 && error == schedule[old(clock)].error
      ensures held == HeldAfter(batch.tokens, model, old(held))
    {
      hide Run, Carries, HistoryOk, Step, Encode, Decode, Labelled, HeldAfter, Holds, NoteFor;
      ghost var s, w := model, Wires(links, accepted);
      ghost var last := |links| - 1;
      var e := schedule[clock];
      HistoryExtend(batch, cfg, schedule, history, Now());
      history := history + [Now()];
      RunExtend(cfg, Start(), schedule, clock);
      assert LinkOk(batch, links[last], Current(s));
      error := if e.Write? then Unknown else e.error;
      ghost var k: nat;
      written, k := SslWrite(message, e.chunks, e.WriteFail?);
      ghost var conn' := if e.WriteFail? then Current(s).(torn := true) else Current(s).(wire := Current(s).wire + [s.phase.i]);
      WroteRefines(batch, w.links[last], Current(s), s.phase.i, n, k, e.WriteFail?);
      MatchesUpdate(batch, w, s.conns, s.log, last, Wrote(w.links[last], message, k, e.WriteFail?), conn');
      WriteEffect(cfg, s, e);
      if e.Write? {
        LabelsWrite(batch, cfg, schedule, clock, w.links, links[last], held, carried, n);
        carried := carried[last := carried[last] + [held]];
      } else {
        LabelsKept(batch, cfg, schedule, clock, w.links, links, held, carried);
      }
      model, clock := Step(cfg, s, e), clock + 1;
      held := HeldAfter(batch.tokens, model, held);
    }
  }
}
