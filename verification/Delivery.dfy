/** The protocol theorems on raw bytes: what the gateway decodes from its connections. */
module Delivery {
  import opened Frame
  import opened Protocol
  import opened Network
  import opened Carriers
  import ExactlyOnce
  import Duplication
  import Recorded
  import Settled
  import Tokens

  function Ids(ns: seq<Notification>): seq<nat> {
    seq(|ns|, k requires 0 <= k < |ns| => ns[k].id)
  }

  lemma NotesIds(b: Batch, ids: seq<nat>, ns: seq<Notification>)
    requires NotesFor(b, ids, ns)
    ensures Ids(ns) == ids
  {
    assert forall k | 0 <= k < |ids| :: NoteFor(b, ids[k], ns[k]);
  }

  /** Each connection carries exactly the frames of its wire, whatever writes were torn. */
  lemma ConnectionsDecode(b: Batch, w: Wires, s: State, c: nat)
    requires Matches(b, w, s.conns, s.log) && c < |s.conns|
    ensures NotesFor(b, s.conns[c].wire, Decode(w.links[c].bytes))
    ensures Ids(Decode(w.links[c].bytes)) == s.conns[c].wire
  {
    hide Decode;
    assert LinkOk(b, w.links[c], s.conns[c]);
    NotesIds(b, s.conns[c].wire, Decode(w.links[c].bytes));
  }

  /** A notification occurs at most as often as its id. */
  lemma {:induction false} CountById(ns: seq<Notification>, n: Notification)
    ensures multiset(ns)[n] <= Duplication.Times(Ids(ns), n.id)
  {
    if ns != [] {
      var last := |ns| - 1;
      CountById(ns[..last], n);
      assert ns == ns[..last] + [ns[last]];
      assert Ids(ns) == Ids(ns[..last]) + [ns[last].id];
      Duplication.TimesSnoc(Ids(ns[..last]), ns[last].id, n.id);
    }
  }

  /** No notification is accepted more than once per reset, and once, and neither is any other with
      its id.  A device may get more: one for every id whose frame carries its token. */
  lemma WireDuplication(b: Batch, reconnect: bool, w: Wires, events: seq<Event>, n: Notification)
    requires var s := Run(Config(|b.tokens|, reconnect), Start(), events); Matches(b, w, s.conns, s.log)
    ensures var s := Run(Config(|b.tokens|, reconnect), Start(), events);
            multiset(w.accepted)[n] <= Duplication.Times(Ids(w.accepted), n.id) <= s.resets + 1
  {
    hide Run;
    var s := Run(Config(|b.tokens|, reconnect), Start(), events);
    CountById(w.accepted, n);
    NotesIds(b, s.log, w.accepted);
    Duplication.BoundedDuplication(Config(|b.tokens|, reconnect), events, n.id);
  }

  /** Over a whole run, each frame on the wires carries the valid token the client's patches left in the
      buffer: its own if that is valid, and otherwise a valid one of the batch prepared before. */
  lemma CarriedTokens(b: Batch, cfg: Config, events: seq<Event>, w: Wires, held: int, carried: seq<seq<int>>, c: nat, k: nat)
    requires var s := Run(cfg, Start(), events); Matches(b, w, s.conns, s.log)
    requires Labelled(b, cfg, events, w.links, held, carried) && c < |w.links| && k < |Decode(w.links[c].bytes)|
    ensures var n, h := Decode(w.links[c].bytes)[k], Carried(b.tokens, cfg, events)[c][k];
            && n.id < |b.tokens| && -1 <= h < |b.tokens|
            && (h >= 0 ==> Tokens.Valid(b.tokens[h]) && n.token == Tokens.Binary(b.tokens[h]))
            && (Tokens.Valid(b.tokens[n.id]) ==> h == n.id)
  {
    hide Decode, Run, Tokens.Valid, Labelled;
    var s := Run(cfg, Start(), events);
    ConnectionsDecode(b, w, s, c);
    CarriedOwn(b.tokens, cfg, events);
    LabelledFrame(b, cfg, events, w.links, held, carried, c);
    assert OwnToken(b.tokens, s.conns[c].wire, carried[c]);
    assert NoteFor(b, s.conns[c].wire[k], Decode(w.links[c].bytes)[k]);
    assert Holds(b.tokens, carried[c][k], Decode(w.links[c].bytes)[k].token);
  }

  lemma LabelledFrame(b: Batch, cfg: Config, events: seq<Event>, links: seq<Link>, held: int, carried: seq<seq<int>>, c: nat)
    requires Labelled(b, cfg, events, links, held, carried) && c < |links|
    ensures carried == Carried(b.tokens, cfg, events) && |carried| == |links| && held == Held(b.tokens, cfg, events)
    ensures FramesCarry(b.tokens, carried[c], Decode(links[c].bytes))
  {
  }

  /** In particular, as long as no round failed, a malformed token repeats the notification to the
      device of the last valid one before it, under an id of its own. */
  lemma FirstRoundTokens(b: Batch, reconnect: bool, events: seq<Event>, w: Wires, held: int, carried: seq<seq<int>>, k: nat)
    requires var s := Run(Config(|b.tokens|, reconnect), Start(), events);
             Matches(b, w, s.conns, s.log) && s.rounds == 0
    requires Labelled(b, Config(|b.tokens|, reconnect), events, w.links, held, carried)
    requires k < |Decode(w.links[0].bytes)|
    ensures var n := Decode(w.links[0].bytes)[k];
            && n.id == k < |b.tokens|
            && (LastValid(b.tokens, k + 1) >= 0 ==> n.token == Tokens.Binary(b.tokens[LastValid(b.tokens, k + 1)]))
  {
    hide Decode, Run, Tokens.Valid, Labelled, FirstRound, FramesCarry, NotesFor, LastValid;
    var cfg := Config(|b.tokens|, reconnect);
    var s, ns := Run(cfg, Start(), events), Decode(w.links[0].bytes);
    LabelledFrame(b, cfg, events, w.links, held, carried, 0);
    CarriedFirstRound(b.tokens, cfg, events);
    assert |s.conns| == |w.links| && |carried| > 0;
    FirstRoundFrame(b.tokens, s, held, carried, ns, k);
    ConnectionsDecode(b, w, s, 0);
    assert Ids(ns)[k] == ns[k].id;
  }

  /** A finished rejection-only batch has delivered the notifications of the good tokens, each once,
      in order, with the payload, expiry and priority of the batch. */
  lemma WireExactlyOnce(b: Batch, w: Wires, bad: set<nat>, events: seq<Event>)
    requires var s := Run(Config(|b.tokens|, true), Start(), events);
             Matches(b, w, s.conns, s.log) && s.phase.Done?
    requires Along(Config(|b.tokens|, true), Start(), events,
                   (s, e) => ExactlyOnce.Benign(Config(|b.tokens|, true), bad, s, e))
    ensures NotesFor(b, ExactlyOnce.GoodBelow(bad, |b.tokens|), w.accepted)
  {
    hide Run;
    ExactlyOnce.RunInv(Config(|b.tokens|, true), bad, events);
  }

  // ----- gateways that use status 5 as defined

  /** A gateway that sends status 5 only for the next frame on the connection, and only if that
      frame's token has a wrong size. */
  ghost predicate SizeHonest(w: Wires, e: Event) {
    Recorded.SendsStatusFive(e) ==>
      && e.conn < |w.links| && w.links[e.conn].taken < |Decode(w.links[e.conn].bytes)|
      && |Decode(w.links[e.conn].bytes)[w.links[e.conn].taken].token| != 32
  }

  /** Such a gateway never sends it to this client. */
  lemma StatusFiveNeverHonest(b: Batch, w: Wires, s: State, e: Event)
    requires Matches(b, w, s.conns, s.log) && SizeHonest(w, e)
    ensures !Recorded.SendsStatusFive(e)
  {
    hide Decode;
    forall c | 0 <= c < |w.links|
      ensures forall k | 0 <= k < |Decode(w.links[c].bytes)| :: |Decode(w.links[c].bytes)[k].token| == 32
    {
      TokenSizeAlwaysRight(b, w.links[c], s.conns[c]);
    }
  }

  ghost predicate HonestRun(schedule: seq<Event>, history: seq<Wires>)
    requires |history| <= |schedule|
  {
    forall k | 0 <= k < |history| :: SizeHonest(history[k], schedule[k])
  }

  /** The gateway has refused, at the head of a connection, the notification with index `j`. */
  ghost predicate RefusedOnWire(b: Batch, w: Wires, j: nat) {
    exists c | 0 <= c < |w.links| ::
      var l := w.links[c];
      l.stopped && l.taken < |Decode(l.bytes)| && NoteFor(b, j, Decode(l.bytes)[l.taken])
  }

  lemma HonestSilence(b: Batch, cfg: Config, schedule: seq<Event>, history: seq<Wires>)
    requires HistoryOk(b, cfg, schedule, history) && HonestRun(schedule, history)
    ensures forall e | e in schedule[..|history|] :: !Recorded.SendsStatusFive(e)
  {
    hide Run, Matches, SizeHonest;
    forall k | 0 <= k < |history| ensures !Recorded.SendsStatusFive(schedule[k]) {
      StatusFiveNeverHonest(b, history[k], Run(cfg, Start(), schedule[..k]), schedule[k]);
    }
  }

  lemma RefusedDecodes(b: Batch, w: Wires, s: State, j: nat)
    requires Matches(b, w, s.conns, s.log) && Settled.Refused(s, j)
    requires forall c | 0 <= c < |s.conns| :: Shape(s.conns[c])
    ensures RefusedOnWire(b, w, j)
  {
    hide Decode;
    var c :| 0 <= c < |s.conns| && s.conns[c].gate == Stopped(INVALID_TOKEN, j);
    assert Shape(s.conns[c]) && LinkOk(b, w.links[c], s.conns[c]);
    assert NoteFor(b, s.conns[c].wire[s.conns[c].taken], Decode(w.links[c].bytes)[w.links[c].taken]);
  }

  /** Over a whole run with such a gateway, whatever fails on the way: a token is recorded as invalid
      only if the gateway refused its notification, which is still there to be read from the bytes
      of the connection. */
  lemma {:induction false} HonestRecorded(b: Batch, cfg: Config, schedule: seq<Event>, history: seq<Wires>, w: Wires)
    requires HistoryOk(b, cfg, schedule, history) && HonestRun(schedule, history)
    requires var s := Run(cfg, Start(), schedule[..|history|]); Matches(b, w, s.conns, s.log)
    ensures Throughout(cfg, schedule[..|history|], Recorded.AllRefused)
    ensures forall j | j in Run(cfg, Start(), schedule[..|history|]).invalid :: RefusedOnWire(b, w, j)
  {
    hide Run, Matches, RefusedOnWire, Throughout, HonestRun, Settled.Refused;
    var events := schedule[..|history|];
    var s := Run(cfg, Start(), events);
    HonestSilence(b, cfg, schedule, history);
    Recorded.RecordedRefused(cfg, events);
    assert forall c | 0 <= c < |s.conns| :: Shape(s.conns[c]) by { Duplication.RunInv(cfg, events); }
    forall j | j in s.invalid ensures RefusedOnWire(b, w, j) {
      RefusedDecodes(b, w, s, j);
    }
  }
}
