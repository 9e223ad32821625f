/** How often one notification can be delivered or reported.  A run with R resets of
    the resume index accepts a notification and records its token no more than R + 1
    times, taken together, whatever goes wrong and however late a dropped connection is
    still read by the gateway. */
module Duplication {
  import opened Protocol

  function Times(s: seq<nat>, j: nat): nat {
    multiset(s)[j]
  }

  /** What the gateway accepted from a connection. */
  function Accepted(c: Conn): seq<nat> {
    if c.taken <= |c.wire| then c.wire[..c.taken] else c.wire
  }

  /** The refusals of a connection that were read. */
  function Refusals(c: Conn): seq<nat> {
    if c.gate.Stopped? && c.gate.status == INVALID_TOKEN && !c.unread then [c.gate.id] else []
  }

  /** What the gateway accepted or refused, or can still accept or refuse, on a connection. */
  function Live(c: Conn): seq<nat> {
    if c.gate.Open? then c.wire
    else if c.gate.status == INVALID_TOKEN && c.taken < |c.wire| then c.wire[..c.taken + 1]
    else Accepted(c)
  }

  function Total(conns: seq<Conn>, part: Conn -> seq<nat>, j: nat): nat {
    if conns == [] then 0
    else Total(conns[..|conns| - 1], part, j) + Times(part(conns[|conns| - 1]), j)
  }

  lemma {:induction false} TotalUpdate(conns: seq<Conn>, c: nat, conn: Conn, part: Conn -> seq<nat>, j: nat)
    requires c < |conns|
    ensures Total(conns[c := conn], part, j) + Times(part(conns[c]), j) == Total(conns, part, j) + Times(part(conn), j)
  {
    var n := |conns| - 1;
    if c < n {
      TotalUpdate(conns[..n], c, conn, part, j);
      assert conns[c := conn][..n] == conns[..n][c := conn];
    } else {
      assert conns[c := conn][..n] == conns[..n];
    }
  }

  lemma TotalAppend(conns: seq<Conn>, conn: Conn, part: Conn -> seq<nat>, j: nat)
    ensures Total(conns + [conn], part, j) == Total(conns, part, j) + Times(part(conn), j)
  {
    assert (conns + [conn])[..|conns|] == conns;
  }

  lemma TimesPrefix(s: seq<nat>, n: nat, j: nat)
    requires n <= |s|
    ensures Times(s[..n], j) <= Times(s, j)
  {
    assert s == s[..n] + s[n..];
  }

  lemma TimesSnoc(s: seq<nat>, x: nat, j: nat)
    ensures Times(s + [x], j) == Times(s, j) + if x == j then 1 else 0
  {
  }

  lemma LiveWithin(c: Conn, j: nat)
    requires Shape(c)
    ensures Times(Live(c), j) <= Times(c.wire, j)
    ensures Times(Accepted(c), j) + Times(Refusals(c), j) <= Times(Live(c), j)
  {
    TimesPrefix(c.wire, c.taken, j);
    if c.gate.Stopped? && c.gate.status == INVALID_TOKEN {
      TimesPrefix(c.wire, c.taken + 1, j);
      assert c.wire[..c.taken + 1] == c.wire[..c.taken] + [c.gate.id];
    }
  }

  lemma {:induction false} VerdictsWithinLive(conns: seq<Conn>, j: nat)
    requires forall c | 0 <= c < |conns| :: Shape(conns[c])
    ensures Total(conns, Accepted, j) + Total(conns, Refusals, j) <= Total(conns, Live, j)
  {
    if conns != [] {
      var n := |conns| - 1;
      VerdictsWithinLive(conns[..n], j);
      LiveWithin(conns[n], j);
    }
  }

  /** How often a token was recorded without a refusal that names it. */
  ghost function Blind(s: State, j: nat): int {
    Times(s.invalid, j) - Total(s.conns, Refusals, j)
  }

  ghost function Older(s: State): seq<Conn>
    requires s.conns != []
  {
    s.conns[..|s.conns| - 1]
  }

  /** Index from which on the run has spent its verdict only as often as it was reset. */
  ghost predicate Spent(s: State, j: nat) {
    match s.phase
    case Sending(i) => j < i
    case Reconnecting => j < s.start
    case Done(_) => true
  }

  /** At position `p` of the current connection, the verdicts still possible on older connections
      and on the frames ahead are bounded for every index not below that frame. */
  ghost predicate Ahead(s: State, p: nat)
    requires s.conns != [] && p < |Current(s).wire|
  {
    forall j: nat | Current(s).wire[p] <= j ::
      Total(Older(s), Live, j) + Times(Current(s).wire[..p], j) + Blind(s, j) <= s.resets
  }

  /** The positions at which the gateway stopped, unknown to the client, or can still stop with status 8. */
  ghost predicate Matters(c: Conn, p: nat) {
    p < |c.wire| && (c.gate.Stopped? ==> c.gate.status == INVALID_TOKEN && p == c.taken && c.unread)
  }

  ghost predicate Budget(s: State, j: nat) {
    Total(s.conns, Live, j) + Blind(s, j) <= s.resets + if Spent(s, j) then 1 else 0
  }

  /** The accounts of index `j`. */
  ghost predicate Balanced(s: State, j: nat) {
    Times(s.log, j) == Total(s.conns, Accepted, j) && Budget(s, j)
  }

  ghost predicate Inv(s: State) {
    && s.conns != []
    && (forall c | 0 <= c < |s.conns| :: Shape(s.conns[c]))
    && (forall c | 0 <= c < |s.conns| && s.conns[c].unread :: s.conns[c].gate.Stopped?)
    && (forall j: nat :: Balanced(s, j))
    && (forall p: nat | Matters(Current(s), p) :: Ahead(s, p))
  }

  /** What a change of one connection and the records does to the accounts. */
  lemma BalancedUpdate(s: State, s': State, c: nat, j: nat)
    requires Balanced(s, j) && c < |s.conns| == |s'.conns| && s'.conns == s.conns[c := s'.conns[c]]
    requires Times(s'.log, j) - Times(s.log, j) == Times(Accepted(s'.conns[c]), j) - Times(Accepted(s.conns[c]), j)
    requires Times(s'.invalid, j) - Times(s.invalid, j) + Times(Live(s'.conns[c]), j) - Times(Live(s.conns[c]), j) <=
             Times(Refusals(s'.conns[c]), j) - Times(Refusals(s.conns[c]), j) +
             s'.resets - s.resets + (if Spent(s', j) then 1 else 0) - (if Spent(s, j) then 1 else 0)
    ensures Balanced(s', j)
  {
    hide Live, Accepted, Refusals, Times, Spent;
    TotalUpdate(s.conns, c, s'.conns[c], Accepted, j);
    TotalUpdate(s.conns, c, s'.conns[c], Live, j);
    TotalUpdate(s.conns, c, s'.conns[c], Refusals, j);
  }

  lemma JudgeBalanced(s: State, c: nat, accept: bool, j: nat)
    requires c < |s.conns| && s.conns[c].gate.Open? && s.conns[c].taken < |s.conns[c].wire| && Shape(s.conns[c])
    requires Balanced(s, j)
    ensures Balanced(Judged(s, c, accept), j)
  {
    hide Total, Balanced, Times;
    var s' := Judged(s, c, accept);
    var conn, conn' := s.conns[c], s'.conns[c];
    var x := conn.wire[conn.taken];
    assert conn.wire[..conn.taken + 1] == conn.wire[..conn.taken] + [x];
    TimesSnoc(s.log, x, j);
    TimesSnoc(conn.wire[..conn.taken], x, j);
    LiveWithin(conn', j);
    BalancedUpdate(s, s', c, j);
  }

  lemma {:induction false} JudgeInv(s: State, c: nat, accept: bool)
    requires Inv(s) && c < |s.conns| && s.conns[c].gate.Open? && s.conns[c].taken < |s.conns[c].wire|
    ensures Inv(Judged(s, c, accept))
  {
    var s' := Judged(s, c, accept);
    forall j: nat ensures Balanced(s', j) { JudgeBalanced(s, c, accept, j); }
    OtherAhead(s, s', c);
    hide Balanced, Ahead, Matters;
  }

  lemma {:induction false} HaltInv(s: State, c: nat, status: int)
    requires Inv(s) && c < |s.conns| && s.conns[c].gate.Open? && status != INVALID_TOKEN
    ensures Inv(Halted(s, c, status))
  {
    var s' := Halted(s, c, status);
    forall j: nat ensures Balanced(s', j) {
      LiveWithin(s'.conns[c], j);
      BalancedUpdate(s, s', c, j);
    }
    OtherAhead(s, s', c);
  }

  /** A gateway step on connection `c` only takes possible verdicts away. */
  lemma {:induction false} OtherAhead(s: State, s': State, c: nat)
    requires Inv(s) && c < |s.conns| && s.conns[c].gate.Open?
    requires s' == s.(conns := s'.conns, log := s'.log) && |s'.conns| == |s.conns| && s'.conns == s.conns[c := s'.conns[c]]
    requires Shape(s'.conns[c]) && s'.conns[c].wire == s.conns[c].wire
    requires Refusals(s'.conns[c]) == []
    ensures forall p: nat | Matters(Current(s'), p) :: Ahead(s', p)
  {
    hide Total, Times;
    BlindSame(s, s', c);
    forall p: nat | Matters(Current(s'), p) ensures Ahead(s', p) {
      assert Matters(Current(s), p) && Ahead(s, p);
      if c < |s.conns| - 1 {
        OlderAhead(s, s', c, p);
      } else {
        assert Older(s') == Older(s);
        AheadKept(s, s', p);
      }
    }
  }

  lemma OlderAhead(s: State, s': State, c: nat, p: nat)
    requires c < |s.conns| - 1 && |s'.conns| == |s.conns| && s'.conns == s.conns[c := s'.conns[c]]
    requires s.conns[c].gate.Open? && Shape(s'.conns[c]) && s'.conns[c].wire == s.conns[c].wire
    requires s'.resets == s.resets
    requires forall j: nat :: Blind(s', j) == Blind(s, j)
    requires p < |Current(s).wire| && Ahead(s, p)
    ensures Ahead(s', p)
  {
    hide Total, Times, Blind;
    assert Older(s') == Older(s)[c := s'.conns[c]];
    forall j: nat ensures Total(Older(s'), Live, j) <= Total(Older(s), Live, j) {
      TotalUpdate(Older(s), c, s'.conns[c], Live, j);
      LiveWithin(s'.conns[c], j);
    }
    hide Live;
  }

  /** What is ahead of a frame depends on the older connections and the frames before it. */
  lemma AheadKept(s: State, s': State, p: nat)
    requires s.conns != [] && s'.conns != [] && Older(s') == Older(s) && s'.resets >= s.resets
    requires p < |Current(s).wire| && p < |Current(s').wire| && Current(s').wire[..p + 1] == Current(s).wire[..p + 1]
    requires forall j: nat :: Blind(s', j) == Blind(s, j)
    requires Ahead(s, p)
    ensures Ahead(s', p)
  {
    hide Total, Times, Blind;
    assert Current(s').wire[..p + 1][p] == Current(s').wire[p] && Current(s).wire[..p + 1][p] == Current(s).wire[p];
    assert Current(s').wire[..p] == Current(s').wire[..p + 1][..p] == Current(s).wire[..p];
  }

  lemma BlindSame(s: State, s': State, c: nat)
    requires c < |s.conns| == |s'.conns| && s'.conns == s.conns[c := s'.conns[c]] && s'.invalid == s.invalid
    requires Refusals(s'.conns[c]) == Refusals(s.conns[c])
    ensures forall j: nat :: Blind(s', j) == Blind(s, j)
  {
    forall j: nat ensures Blind(s', j) == Blind(s, j) { TotalUpdate(s.conns, c, s'.conns[c], Refusals, j); }
  }

  lemma WriteBalanced(s: State, j: nat)
    requires s.conns != [] && s.phase.Sending? && Shape(Current(s)) && Balanced(s, j)
    ensures Balanced(Written(s), j)
  {
    hide Total, Balanced, Times;
    var cur, s', n := Current(s), Written(s), |s.conns| - 1;
    assert Current(s').wire == cur.wire + [s.phase.i];
    assert Accepted(Current(s')) == Accepted(cur) && Refusals(Current(s')) == Refusals(cur);
    assert cur.gate.Stopped? ==> Live(Current(s')) == Live(cur);
    TimesSnoc(cur.wire, s.phase.i, j);
    BalancedUpdate(s, s', n, j);
  }

  lemma WriteAhead(s: State, p: nat)
    requires Inv(s) && s.phase.Sending? && Matters(Current(Written(s)), p)
    ensures Ahead(Written(s), p)
  {
    hide Total, Times;
    var s', cur, i := Written(s), Current(s), s.phase.i;
    assert Current(s').wire == cur.wire + [i];
    assert Older(s') == Older(s);
    BlindSame(s, s', |s.conns| - 1);
    if p < |cur.wire| {
      AheadKept(s, s', p);
    } else {
      assert Current(s').wire[..p] == cur.wire && Shape(cur);
      forall j: nat | i <= j ensures Total(Older(s), Live, j) + Times(cur.wire, j) + Blind(s, j) <= s.resets {
        assert Balanced(s, j);
        TotalAppend(Older(s), cur, Live, j);
        assert Older(s) + [cur] == s.conns;
      }
    }
  }

  lemma {:induction false} WriteInv(s: State)
    requires Inv(s) && s.phase.Sending?
    ensures Inv(Written(s))
  {
    forall j: nat ensures Balanced(Written(s), j) { WriteBalanced(s, j); }
    forall p: nat | Matters(Current(Written(s)), p) ensures Ahead(Written(s), p) { WriteAhead(s, p); }
    hide Balanced, Ahead;
  }

  /** Noting a failed write, or a read that names no index, leaves every verdict as it was. */
  lemma {:induction false} FlagsInv(s: State, unread: bool, torn: bool)
    requires Inv(s) && (unread ==> Current(s).unread)
    requires unread == Current(s).unread || (Current(s).gate.Stopped? && Current(s).gate.status != INVALID_TOKEN)
    ensures Inv(Flagged(s, unread, torn))
  {
    hide Total, Times;
    var s', n := Flagged(s, unread, torn), |s.conns| - 1;
    assert Older(s') == Older(s);
    BlindSame(s, s', n);
    assert Live(Current(s')) == Live(Current(s)) && Accepted(Current(s')) == Accepted(Current(s));
    assert Refusals(Current(s')) == Refusals(Current(s));
    forall j: nat ensures Balanced(s', j) {
      assert Spent(s', j) == Spent(s, j);
      BalancedUpdate(s, s', n, j);
    }
    forall p: nat | Matters(Current(s'), p) ensures Ahead(s', p) {
      assert Matters(Current(s), p);
      AheadKept(s, s', p);
    }
    hide Balanced, Ahead, Matters, Live, Accepted, Refusals;
  }

  lemma {:induction false} EndRoundInv(cfg: Config, s: State, error: Error, index: nat, reset: bool)
    requires Inv(s) && s.phase.Sending? && !error.TokenInvalid?
    requires reset || (forall j: nat | index <= j :: Total(s.conns, Live, j) + Blind(s, j) <= s.resets)
    ensures Inv(EndRound(cfg, s, error, index, reset))
  {
    var s' := EndRound(cfg, s, error, index, reset);
    forall j: nat ensures Balanced(s', j) { assert Balanced(s, j); }
    forall p: nat | Matters(Current(s'), p) ensures Ahead(s', p) { assert Ahead(s, p); }
  }

  /** A refusal that is read turns a possible verdict into a record. */
  lemma {:induction false} RefusalInv(cfg: Config, s: State)
    requires Inv(s) && s.phase.Sending? && Current(s).unread && Current(s).gate.status == INVALID_TOKEN
    ensures Inv(PacketRead(cfg, s))
  {
    var cur, s', n := Current(s), PacketRead(cfg, s), |s.conns| - 1;
    assert Matters(cur, cur.taken);
    forall j: nat ensures Balanced(s', j) { RefusalBalanced(cfg, s, j); }
    hide Balanced, Ahead;
  }

  /** Reading the refusal of a connection adds it to the refusals read, and changes no other total. */
  lemma ReadTotals(conns: seq<Conn>, c: nat, j: nat)
    requires c < |conns| && conns[c].unread && conns[c].gate.Stopped? && conns[c].gate.status == INVALID_TOKEN
    ensures var conns' := conns[c := conns[c].(unread := false)];
            && Total(conns', Accepted, j) == Total(conns, Accepted, j)
            && Total(conns', Live, j) == Total(conns, Live, j)
            && Total(conns', Refusals, j) == Total(conns, Refusals, j) + if conns[c].gate.id == j then 1 else 0
  {
    var conn' := conns[c].(unread := false);
    assert Refusals(conns[c]) == [] && Refusals(conn') == [conns[c].gate.id];
    assert Live(conn') == Live(conns[c]) && Accepted(conn') == Accepted(conns[c]);
    hide Live, Accepted, Refusals, Total;
    TotalUpdate(conns, c, conn', Accepted, j);
    TotalUpdate(conns, c, conn', Live, j);
    TotalUpdate(conns, c, conn', Refusals, j);
  }

  lemma RefusalMoves(cfg: Config, s: State, j: nat)
    requires s.conns != [] && Current(s).unread
    requires Current(s).gate.Stopped? && Current(s).gate.status == INVALID_TOKEN
    ensures var s' := PacketRead(cfg, s);
            && Total(s'.conns, Accepted, j) == Total(s.conns, Accepted, j)
            && Total(s'.conns, Live, j) == Total(s.conns, Live, j)
            && Blind(s', j) == Blind(s, j)
  {
    hide Total, Times;
    var s', n := PacketRead(cfg, s), |s.conns| - 1;
    assert s'.conns == s.conns[n := s.conns[n].(unread := false)] && s'.invalid == s.invalid + [Current(s).gate.id];
    hide PacketRead;
    ReadTotals(s.conns, n, j);
    TimesSnoc(s.invalid, Current(s).gate.id, j);
  }

  /** Behind the refused frame nothing is left to come. */
  lemma RefusalAhead(s: State, j: nat)
    requires s.conns != [] && Shape(Current(s)) && Current(s).gate.Stopped? && Current(s).gate.status == INVALID_TOKEN
    requires Ahead(s, Current(s).taken) && Current(s).gate.id < j
    ensures Total(s.conns, Live, j) + Blind(s, j) <= s.resets
  {
    var cur := Current(s);
    TimesSnoc(cur.wire[..cur.taken], cur.gate.id, j);
    assert cur.wire[..cur.taken + 1] == cur.wire[..cur.taken] + [cur.gate.id];
    hide Times, Blind;
    TotalAppend(Older(s), cur, Live, j);
    assert Older(s) + [cur] == s.conns;
  }

  lemma RefusalBalanced(cfg: Config, s: State, j: nat)
    requires s.conns != [] && s.phase.Sending? && Current(s).unread && Shape(Current(s)) && Balanced(s, j)
    requires Current(s).gate.Stopped? && Current(s).gate.status == INVALID_TOKEN
    requires Ahead(s, Current(s).taken)
    ensures Balanced(PacketRead(cfg, s), j)
  {
    hide Total, Blind, Ahead;
    RefusalMoves(cfg, s, j);
    if Current(s).gate.id < j { RefusalAhead(s, j); }
  }

  /** Status 5 blames token 0, which the reset pays for. */
  lemma {:induction false} BlameInv(cfg: Config, s: State)
    requires Inv(s) && s.phase.Sending? && Current(s).unread && Current(s).gate.status == INVALID_TOKEN_SIZE
    ensures Inv(PacketRead(cfg, s))
  {
    var s1, s' := Flagged(s, false, Current(s).torn), PacketRead(cfg, s);
    FlagsInv(s, false, Current(s).torn);
    forall j: nat ensures Balanced(s', j) {
      TimesSnoc(s.invalid, 0, j);
      assert Balanced(s1, j);
    }
  }

  lemma {:induction false} ReadInv(cfg: Config, s: State)
    requires Inv(s) && s.phase.Sending? && Current(s).unread
    ensures Inv(PacketRead(cfg, s))
  {
    var status := Current(s).gate.status;
    if status == INVALID_TOKEN {
      RefusalInv(cfg, s);
    } else if status == INVALID_TOKEN_SIZE {
      BlameInv(cfg, s);
    } else {
      hide Inv;
      FlagsInv(s, false, Current(s).torn);
      EndRoundInv(cfg, Flagged(s, false, Current(s).torn), ConvertAppleError(status), 0, true);
    }
  }

  lemma {:induction false} ConnectInv(s: State, outcome: ConnectOutcome)
    requires Inv(s) && s.phase.Reconnecting?
    ensures Inv(Reconnected(s, outcome))
  {
    hide Times, Balanced;
    var s' := Reconnected(s, outcome);
    forall j: nat ensures Balanced(s', j) { ConnectBalanced(s, outcome, j); }
    if outcome.Connected? {
      assert forall p: nat :: !Matters(FRESH, p);
    } else {
      forall p: nat | Matters(Current(s'), p) ensures Ahead(s', p) { AheadKept(s, s', p); }
    }
    hide Ahead, Matters, Total;
  }

  lemma ConnectBalanced(s: State, outcome: ConnectOutcome, j: nat)
    requires Balanced(s, j) && s.phase.Reconnecting?
    ensures Balanced(Reconnected(s, outcome), j)
  {
    assert Times([], j) == 0;
    hide Times;
    if outcome.Connected? {
      TotalAppend(s.conns, FRESH, Accepted, j);
      TotalAppend(s.conns, FRESH, Live, j);
      TotalAppend(s.conns, FRESH, Refusals, j);
    }
  }

  lemma {:induction false} StepInv(cfg: Config, s: State, e: Event)
    requires Inv(s)
    ensures Inv(Step(cfg, s, e))
  {
    if Enabled(cfg, s, e) {
      match e
      case Judge(c, accept) => JudgeInv(s, c, accept);
      case Halt(c, status) => HaltInv(s, c, status);
      case Write(_) => WriteInv(s);
      case WriteFail(_, error) =>
        FlagsInv(s, Current(s).unread, true);
        EndRoundInv(cfg, Flagged(s, Current(s).unread, true), error, 0, true);
      case SelectFail(code) => EndRoundInv(cfg, s, Sys(code), 0, true);
      case Read => ReadInv(cfg, s);
      case ReadFail(error) =>
        forall j: nat | s.phase.i <= j ensures Total(s.conns, Live, j) + Blind(s, j) <= s.resets { assert Balanced(s, j); }
        EndRoundInv(cfg, s, error, s.phase.i, false);
      case Quiet => QuietInv(s);
      case Connect(outcome) => ConnectInv(s, outcome);
    }
  }

  lemma {:induction false} QuietInv(s: State)
    requires Inv(s)
    ensures Inv(s.(phase := Done(Success)))
  {
    var s' := s.(phase := Done(Success));
    forall j: nat ensures Balanced(s', j) { assert Balanced(s, j); }
    forall p: nat | Matters(Current(s'), p) ensures Ahead(s', p) { assert Ahead(s, p); }
  }

  lemma {:induction false} RunInv(cfg: Config, events: seq<Event>)
    ensures Inv(Run(cfg, Start(), events))
  {
    if events == [] {
      forall j: nat ensures Total([FRESH], Live, j) == Total([FRESH], Accepted, j) == Total([FRESH], Refusals, j) == 0 {
        assert [] + [FRESH] == [FRESH];
        TotalAppend([], FRESH, Live, j);
        TotalAppend([], FRESH, Accepted, j);
        TotalAppend([], FRESH, Refusals, j);
      }
    } else {
      var n := |events| - 1;
      RunInv(cfg, events[..n]);
      StepInv(cfg, Run(cfg, Start(), events[..n]), events[n]);
    }
  }

  /** Main result: with R resets any notification is delivered, and its token recorded, at most R + 1
      times taken together.  In particular refusals and read failures, which do not reset, never
      deliver one twice, and no delivered one is reported. */
  lemma {:induction false} BoundedDuplication(cfg: Config, events: seq<Event>, j: nat)
    ensures var s := Run(cfg, Start(), events); Times(s.log, j) + Times(s.invalid, j) <= s.resets + 1
  {
    var s := Run(cfg, Start(), events);
    RunInv(cfg, events);
    VerdictsWithinLive(s.conns, j);
    assert Balanced(s, j);
  }

  const ENOMEM := 12

  /** A quiet connection whose gateway accepted all it got, at index `i` of a round begun at 0. */
  ghost predicate AllAccepted(s: State, i: nat) {
    && |s.conns| == 1 && s.phase == Sending(i) && !s.autoReconnect && s.start == 0
    && s.conns[0].taken == |s.conns[0].wire| && s.conns[0].gate.Open? && !s.conns[0].torn
  }

  lemma DeliverFirst(cfg: Config, s: State) returns (s': State)
    requires cfg.count > 0 && AllAccepted(s, 0)
    ensures s' == Step(cfg, Step(cfg, s, Write([])), Judge(0, true))
    ensures AllAccepted(s', 1) && s'.log == s.log + [0] && s'.resets == s.resets
  {
    var s1 := Written(s);
    assert Step(cfg, s, Write([])) == s1;
    s' := Judged(s1, 0, true);
  }

  /** The bound is attained for every number of resets.  The same runs show that an error that is not
      retried never leaves the loop: the batch starts over on the old connection. */
  lemma {:induction false} DuplicationAttained(cfg: Config, r: nat) returns (events: seq<Event>)
    requires cfg.count > 0
    ensures var s := Run(cfg, Start(), events);
            s.resets == r && Times(s.log, 0) == r + 1 && AllAccepted(s, 1)
  {
    hide Step;
    var s := Start();
    events := [];
    if r > 0 {
      events := DuplicationAttained(cfg, r - 1);
      s := Again(cfg, Run(cfg, Start(), events));
      RunSnoc(cfg, Start(), events, SelectFail(ENOMEM));
      events := events + [SelectFail(ENOMEM)];
    }
    var s' := DeliverFirst(cfg, s);
    TimesSnoc(s.log, 0, 0);
    RunSnoc(cfg, Start(), events, Write([]));
    RunSnoc(cfg, Start(), events + [Write([])], Judge(0, true));
    events := events + [Write([])] + [Judge(0, true)];
  }

  lemma Again(cfg: Config, s: State) returns (s': State)
    requires cfg.count > 0 && AllAccepted(s, 1)
    ensures s' == Step(cfg, s, SelectFail(ENOMEM))
    ensures AllAccepted(s', 0) && s'.log == s.log && s'.resets == s.resets + 1
  {
    s' := EndRound(cfg, s, Sys(ENOMEM), 0, true);
  }

  // ----- the bound is attained by records, too

  lemma RunThree(cfg: Config, events: seq<Event>, a: Event, b: Event, c: Event)
    ensures Run(cfg, Start(), events + [a, b, c]) == Step(cfg, Step(cfg, Step(cfg, Run(cfg, Start(), events), a), b), c)
  {
    hide Step;
    RunSnoc(cfg, Start(), events, a);
    RunSnoc(cfg, Start(), events + [a], b);
    RunSnoc(cfg, Start(), events + [a] + [b], c);
    assert events + [a] + [b] + [c] == events + [a, b, c];
  }

  /** A fresh connection on which token 0 is to be sent. */
  ghost predicate FromZero(s: State) {
    s.conns != [] && Current(s) == FRESH && s.phase == Sending(0)
  }

  ghost predicate BehindZero(s: State) {
    s.conns != [] && s.phase.Reconnecting? && s.autoReconnect && s.start == 1
  }

  lemma RefuseZero(cfg: Config, s: State) returns (s': State)
    requires cfg.count > 1 && cfg.reconnect && FromZero(s)
    ensures s' == Step(cfg, Step(cfg, Step(cfg, s, Write([])), Judge(|s.conns| - 1, false)), Read)
    ensures BehindZero(s') && s'.invalid == s.invalid + [0] && s'.resets == s.resets
  {
    var s1 := Written(s);
    assert Step(cfg, s, Write([])) == s1 && Current(s1).wire == [0];
    var s2 := Judged(s1, |s.conns| - 1, false);
    s' := PacketRead(cfg, s2);
  }

  lemma LoseWrite(cfg: Config, s: State) returns (s': State)
    requires cfg.count > 1 && cfg.reconnect && BehindZero(s)
    ensures s' == Step(cfg, Step(cfg, Step(cfg, s, Connect(Connected)), WriteFail([], ConnectionClosed)), Connect(Connected))
    ensures FromZero(s') && s'.invalid == s.invalid && s'.resets == s.resets + 1
  {
    var s1 := Reconnected(s, Connected);
    assert Step(cfg, s, Connect(Connected)) == s1;
    var s2 := EndRound(cfg, Flagged(s1, Current(s1).unread, true), ConnectionClosed, 0, true);
    assert Step(cfg, s1, WriteFail([], ConnectionClosed)) == s2;
    s' := Reconnected(s2, Connected);
  }

  lemma FinishTwo(s: State) returns (s': State)
    requires BehindZero(s)
    ensures s' == Step(Config(2, true), Step(Config(2, true), Step(Config(2, true), s, Connect(Connected)), Write([])), Quiet)
    ensures s'.phase == Done(Success) && s'.invalid == s.invalid && s'.resets == s.resets
  {
    var s1 := Reconnected(s, Connected);
    assert Step(Config(2, true), s, Connect(Connected)) == s1;
    s' := Written(s1).(phase := Done(Success));
  }

  lemma {:induction false} RecordedAgain(cfg: Config, r: nat) returns (events: seq<Event>)
    requires cfg.count > 1 && cfg.reconnect
    ensures var s := Run(cfg, Start(), events);
            BehindZero(s) && s.resets == r && |s.invalid| == Times(s.invalid, 0) == r + 1
  {
    hide Step;
    var s := Start();
    events := [];
    if r > 0 {
      events := RecordedAgain(cfg, r - 1);
      s := LoseWrite(cfg, Run(cfg, Start(), events));
      RunThree(cfg, events, Connect(Connected), WriteFail([], ConnectionClosed), Connect(Connected));
      events := events + [Connect(Connected), WriteFail([], ConnectionClosed), Connect(Connected)];
    }
    var s' := RefuseZero(cfg, s);
    TimesSnoc(s.invalid, 0, 0);
    RunThree(cfg, events, Write([]), Judge(|s.conns| - 1, false), Read);
    events := events + [Write([]), Judge(|s.conns| - 1, false), Read];
  }

  /** For every number of resets there is a run of two tokens that ends in success with one of them
      recorded once more than it was reset: there may be more invalid tokens than tokens. */
  lemma {:induction false} RecordedAttained(r: nat) returns (events: seq<Event>)
    ensures var s := Run(Config(2, true), Start(), events);
            s.phase == Done(Success) && s.resets == r && |s.invalid| == Times(s.invalid, 0) == r + 1
  {
    hide Step, Run;
    events := RecordedAgain(Config(2, true), r);
    var s' := FinishTwo(Run(Config(2, true), Start(), events));
    RunThree(Config(2, true), events, Connect(Connected), Write([]), Quiet);
    events := events + [Connect(Connected), Write([]), Quiet];
  }
}
