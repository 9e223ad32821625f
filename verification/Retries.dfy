/** How long a batch can take when, besides refusals, only faults occur that are
    answered by a new connection: lost connections, shutdowns, failed reconnects. */
module Retries {
  import opened Protocol
  import ExactlyOnce

  /** A gateway that refuses exactly the bad tokens, and faults that are retried. */
  ghost predicate Retried(cfg: Config, bad: set<nat>, s: State, e: Event) {
    Enabled(cfg, s, e) ==>
      match e
      case Judge(c, accept) => accept <==> s.conns[c].wire[s.conns[c].taken] !in bad
      case Halt(_, status) => status == SERVICE_SHUTDOWN
      case WriteFail(_, error) => Retryable(error)
      case ReadFail(error) => Retryable(error)
      case SelectFail(_) => false
      case _ => true
  }

  function Bad(bad: set<nat>, n: nat): nat {
    |ExactlyOnce.BadBelow(bad, n)|
  }

  /** Rounds that ended in anything but a refusal. */
  function Faults(s: State): int {
    s.rounds - |s.invalid|
  }

  ghost predicate FreshRound(bad: set<nat>, s: State)
    requires s.conns != [] && s.phase.Sending?
  {
    var cur := Current(s);
    && cur.taken <= |cur.wire| && !cur.torn
    && (forall k | 0 <= k < |cur.wire| :: s.start <= cur.wire[k] < s.phase.i)
    && (cur.gate.Stopped? ==>
          || cur.gate.status == SERVICE_SHUTDOWN
          || (cur.gate.status == INVALID_TOKEN && s.start <= cur.gate.id < s.phase.i && cur.gate.id in bad))
  }

  ghost predicate Inv(cfg: Config, bad: set<nat>, s: State) {
    && s.conns != []
    && s.start <= cfg.count
    && (s.phase.Sending? ==> s.start <= s.phase.i <= cfg.count && FreshRound(bad, s))
    && 0 <= Faults(s)
    && |s.invalid| <= Faults(s) * Bad(bad, cfg.count) + Bad(bad, s.start)
  }

  lemma {:induction false} BadGrows(bad: set<nat>, a: nat, b: nat)
    requires a <= b
    ensures Bad(bad, a) <= Bad(bad, b)
  {
    if a < b { BadGrows(bad, a, b - 1); }
  }

  /** A refusal on a fresh connection is not below the round's start, so it moves the resume
      index behind one more bad token. */
  lemma {:induction false} RefusalAdvances(cfg: Config, bad: set<nat>, s: State)
    requires Inv(cfg, bad, s) && s.phase.Sending? && Current(s).gate.Stopped?
    requires Current(s).gate.status == INVALID_TOKEN
    ensures s.start <= Current(s).gate.id < cfg.count
    ensures Bad(bad, Current(s).gate.id + 1) >= Bad(bad, s.start) + 1
  {
    var id := Current(s).gate.id;
    BadGrows(bad, s.start, id);
    assert Bad(bad, id + 1) == Bad(bad, id) + 1;
  }

  /** `t` is `s` but for what happened to the connection. */
  lemma {:induction false} FaultInv(cfg: Config, bad: set<nat>, s: State, t: State, error: Error, index: nat, reset: bool)
    requires cfg.reconnect && Inv(cfg, bad, s) && s.phase.Sending? && t == s.(conns := t.conns) && t.conns != []
    requires Retryable(error) && !error.TokenInvalid?
    requires index == 0 || s.start <= index <= cfg.count
    ensures Inv(cfg, bad, EndRound(cfg, t, error, index, reset))
  {
    var b := Bad(bad, cfg.count);
    BadGrows(bad, s.start, cfg.count);
    assert (Faults(s) + 1) * b == Faults(s) * b + b;
  }

  lemma {:induction false} ReadInv(cfg: Config, bad: set<nat>, s: State)
    requires cfg.reconnect && Inv(cfg, bad, s) && s.phase.Sending? && Current(s).gate.Stopped?
    ensures Inv(cfg, bad, PacketRead(cfg, s))
  {
    if Current(s).gate.status == INVALID_TOKEN {
      RefusalAdvances(cfg, bad, s);
    } else {
      FaultInv(cfg, bad, s, Flagged(s, false, Current(s).torn), ServiceShutdown, 0, true);
    }
  }

  lemma {:induction false} StepInv(cfg: Config, bad: set<nat>, s: State, e: Event)
    requires cfg.reconnect && Inv(cfg, bad, s) && Retried(cfg, bad, s, e)
    ensures Inv(cfg, bad, Step(cfg, s, e))
  {
    if Enabled(cfg, s, e) {
      var cur := Current(s);
      hide EndRound, PacketRead;
      match e
      case Judge(c, accept) =>
      case Halt(_, _) =>
      case Write(_) => assert Current(Written(s)).wire == cur.wire + [s.phase.i];
      case WriteFail(_, error) => FaultInv(cfg, bad, s, Flagged(s, cur.unread, true), error, 0, true);
      case ReadFail(error) => FaultInv(cfg, bad, s, s, error, s.phase.i, false);
      case Read => ReadInv(cfg, bad, s);
      case Quiet =>
      case Connect(_) =>
    }
  }

  lemma {:induction false} RunInv(cfg: Config, bad: set<nat>, events: seq<Event>)
    requires cfg.reconnect && Along(cfg, Start(), events, (s, e) => Retried(cfg, bad, s, e))
    ensures Inv(cfg, bad, Run(cfg, Start(), events))
  {
    if events != [] {
      var n := |events| - 1;
      RunInv(cfg, bad, events[..n]);
      StepInv(cfg, bad, Run(cfg, Start(), events[..n]), events[n]);
    }
  }

  /** Main result: with B bad tokens and F faults, at most (F + 1) * (B + 1) rounds are begun. */
  lemma {:induction false} RoundBound(cfg: Config, bad: set<nat>, events: seq<Event>)
    requires cfg.reconnect && Along(cfg, Start(), events, (s, e) => Retried(cfg, bad, s, e))
    ensures var s := Run(cfg, Start(), events);
            s.rounds + 1 <= (Faults(s) + 1) * (Bad(bad, cfg.count) + 1)
  {
    var s := Run(cfg, Start(), events);
    var f, b := Faults(s), Bad(bad, cfg.count);
    assert |s.invalid| <= f * b + b by {
      RunInv(cfg, bad, events);
      BadGrows(bad, s.start, cfg.count);
    }
    Product(f, b);
  }

  /** The client can always go on without a further fault. */
  lemma {:induction false} RetriedProgress(cfg: Config, bad: set<nat>, events: seq<Event>) returns (e: Event)
    requires cfg.reconnect && Along(cfg, Start(), events, (s, e) => Retried(cfg, bad, s, e))
    requires !Run(cfg, Start(), events).phase.Done?
    ensures e.Write? || e == Quiet || e == Connect(Connected)
    ensures Enabled(cfg, Run(cfg, Start(), events), e) && Retried(cfg, bad, Run(cfg, Start(), events), e)
  {
    RunInv(cfg, bad, events);
    var s := Run(cfg, Start(), events);
    hide Run;
    e := match s.phase
      case Reconnecting => Connect(Connected)
      case Sending(i) => if i < cfg.count then Write([]) else Quiet
      case Done(_) => Quiet;
  }

  /** The client's own steps in a run: connects, writes, reads, and the faults of each. */
  ghost function ClientSteps(cfg: Config, events: seq<Event>): nat {
    if events == [] then 0
    else
      var n := |events| - 1;
      ClientSteps(cfg, events[..n]) +
      if !GatewayEvent(events[n]) && Enabled(cfg, Run(cfg, Start(), events[..n]), events[n]) then 1 else 0
  }

  /** Steps that `rounds` failed rounds and the present phase account for. */
  function Allowance(cfg: Config, s: State): int {
    s.rounds * (cfg.count + 2) +
    match s.phase
    case Sending(i) => i
    case Reconnecting => -1
    case Done(_) => cfg.count + 1
  }

  predicate InBounds(cfg: Config, s: State) {
    match s.phase
    case Sending(i) => i <= cfg.count
    case Reconnecting => s.start < cfg.count
    case Done(_) => true
  }

  lemma {:induction false} StepAllowance(cfg: Config, s: State, e: Event)
    requires cfg.count > 0 && InBounds(cfg, s)
    ensures var s' := Step(cfg, s, e);
            && InBounds(cfg, s')
            && Allowance(cfg, s') >= Allowance(cfg, s) + if !GatewayEvent(e) && Enabled(cfg, s, e) then 1 else 0
  {
    var s' := Step(cfg, s, e);
    assert (s.rounds + 1) * (cfg.count + 2) == s.rounds * (cfg.count + 2) + (cfg.count + 2);
    assert s'.rounds == s.rounds || s'.rounds == s.rounds + 1;
  }

  lemma {:induction false} StepsWithinAllowance(cfg: Config, events: seq<Event>)
    requires cfg.count > 0
    ensures var s := Run(cfg, Start(), events);
            && InBounds(cfg, s)
            && ClientSteps(cfg, events) <= Allowance(cfg, s)
  {
    if events != [] {
      var n := |events| - 1;
      StepsWithinAllowance(cfg, events[..n]);
      StepAllowance(cfg, Run(cfg, Start(), events[..n]), events[n]);
    }
  }

  /** Main result: with B bad tokens and F faults the client stops after at most
      (F + 1) * (B + 1) * (count + 2) steps of its own. */
  lemma {:induction false} FinishesWithin(cfg: Config, bad: set<nat>, events: seq<Event>)
    requires cfg.count > 0 && cfg.reconnect && Along(cfg, Start(), events, (s, e) => Retried(cfg, bad, s, e))
    ensures var s := Run(cfg, Start(), events);
            ClientSteps(cfg, events) <= (Faults(s) + 1) * (Bad(bad, cfg.count) + 1) * (cfg.count + 2)
  {
    hide Run;
    var s := Run(cfg, Start(), events);
    StepsWithinAllowance(cfg, events);
    RoundBound(cfg, bad, events);
    Times(s.rounds + 1, (Faults(s) + 1) * (Bad(bad, cfg.count) + 1), cfg.count + 2);
    assert (s.rounds + 1) * (cfg.count + 2) == s.rounds * (cfg.count + 2) + (cfg.count + 2);
  }

  lemma Times(a: int, b: int, k: nat)
    requires a <= b
    ensures a * k <= b * k
  {
  }

  lemma Product(f: int, b: int)
    ensures (f + 1) * (b + 1) == f * b + b + f + 1
  {
  }
}
