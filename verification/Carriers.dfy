/** Which token a frame carries.  The buffer is patched with every valid token the client comes to
    and keeps the one before when a token is malformed. */
module Carriers {
  import opened Bytes
  import opened Frame
  import opened Protocol
  import Tokens

  /** The index of the token in the buffer in state `s`, given the one before; -1 stands for what
      the memory held at first. */
  function HeldAfter(tokens: seq<string>, s: State, held: int): int {
    if s.phase.Sending? && s.phase.i < |tokens| && Tokens.Valid(tokens[s.phase.i]) then s.phase.i else held
  }

  function Held(tokens: seq<string>, cfg: Config, events: seq<Event>): int {
    HeldAfter(tokens, Run(cfg, Start(), events),
              if events == [] then -1 else Held(tokens, cfg, events[..|events| - 1]))
  }

  /** For every connection the indices of the tokens its frames carry. */
  function CarriedStep(cfg: Config, s: State, e: Event, held: int, carried: seq<seq<int>>): seq<seq<int>> {
    if !Enabled(cfg, s, e) || carried == [] then carried
    else
      match e
      case Write(_) => carried[|carried| - 1 := carried[|carried| - 1] + [held]]
      case Connect(outcome) => if outcome.Connected? then carried + [[]] else carried
      case _ => carried
  }

  function Carried(tokens: seq<string>, cfg: Config, events: seq<Event>): seq<seq<int>> {
    if events == [] then [[]]
    else
      var init := events[..|events| - 1];
      CarriedStep(cfg, Run(cfg, Start(), init), events[|events| - 1], Held(tokens, cfg, init), Carried(tokens, cfg, init))
  }

  ghost predicate Holds(tokens: seq<string>, held: int, token: seq<byte>) {
    0 <= held < |tokens| && Tokens.Valid(tokens[held]) ==> token == Tokens.Binary(tokens[held])
  }

  ghost predicate FramesCarry(tokens: seq<string>, held: seq<int>, ns: seq<Notification>) {
    |held| == |ns| && forall k | 0 <= k < |ns| :: Holds(tokens, held[k], ns[k].token)
  }

  lemma FramesCarrySnoc(tokens: seq<string>, held: seq<int>, ns: seq<Notification>, h: int, n: Notification)
    requires FramesCarry(tokens, held, ns) && Holds(tokens, h, n.token)
    ensures FramesCarry(tokens, held + [h], ns + [n])
  {
    hide Holds;
  }

  lemma Extend(tokens: seq<string>, cfg: Config, schedule: seq<Event>, k: nat)
    requires k < |schedule|
    ensures var s, e, held := Run(cfg, Start(), schedule[..k]), schedule[k], Held(tokens, cfg, schedule[..k]);
            && Held(tokens, cfg, schedule[..k + 1]) == HeldAfter(tokens, Step(cfg, s, e), held)
            && Carried(tokens, cfg, schedule[..k + 1]) ==
               CarriedStep(cfg, s, e, held, Carried(tokens, cfg, schedule[..k]))
  {
    RunExtend(cfg, Start(), schedule, k);
    assert schedule[..k + 1][..k] == schedule[..k];
    hide Step, Run, HeldAfter, CarriedStep;
  }

  // ----- what that means

  /** The last valid token among the first `n`. */
  function LastValid(tokens: seq<string>, n: nat): (h: int)
    requires n <= |tokens|
    ensures -1 <= h < n && (h >= 0 ==> Tokens.Valid(tokens[h]))
    ensures forall j | h < j < n :: !Tokens.Valid(tokens[j])
  {
    if n == 0 then -1 else if Tokens.Valid(tokens[n - 1]) then n - 1 else LastValid(tokens, n - 1)
  }

  lemma {:induction false} HeldValid(tokens: seq<string>, cfg: Config, events: seq<Event>)
    ensures var h := Held(tokens, cfg, events); -1 <= h < |tokens| && (h >= 0 ==> Tokens.Valid(tokens[h]))
  {
    hide Run, Tokens.Valid;
    if events != [] { HeldValid(tokens, cfg, events[..|events| - 1]); }
  }

  ghost predicate OwnTokens(tokens: seq<string>, conns: seq<Conn>, carried: seq<seq<int>>) {
    && |carried| == |conns| > 0
    && forall c | 0 <= c < |conns| :: OwnToken(tokens, conns[c].wire, carried[c])
  }

  ghost predicate OwnToken(tokens: seq<string>, wire: seq<nat>, held: seq<int>) {
    && |held| == |wire|
    && (forall k | 0 <= k < |held| :: -1 <= held[k] < |tokens| && (held[k] >= 0 ==> Tokens.Valid(tokens[held[k]])))
    && forall k | 0 <= k < |wire| && wire[k] < |tokens| && Tokens.Valid(tokens[wire[k]]) :: held[k] == wire[k]
  }

  lemma OwnTokensStep(tokens: seq<string>, cfg: Config, s: State, e: Event, held: int, carried: seq<seq<int>>)
    requires OwnTokens(tokens, s.conns, carried) && held == HeldAfter(tokens, s, held)
    requires -1 <= held < |tokens| && (held >= 0 ==> Tokens.Valid(tokens[held]))
    ensures OwnTokens(tokens, Step(cfg, s, e).conns, CarriedStep(cfg, s, e, held, carried))
  {
    hide Tokens.Valid;
    var s', carried', last := Step(cfg, s, e), CarriedStep(cfg, s, e, held, carried), |s.conns| - 1;
    StepWires(cfg, s, e);
    hide Step, Enabled;
    forall c | 0 <= c < |s'.conns| ensures OwnToken(tokens, s'.conns[c].wire, carried'[c]) {
      if c < |s.conns| { assert OwnToken(tokens, s.conns[c].wire, carried[c]); }
    }
  }

  /** What a step puts on the wires. */
  lemma StepWires(cfg: Config, s: State, e: Event)
    requires s.conns != []
    ensures var s', last := Step(cfg, s, e), |s.conns| - 1;
            if !Enabled(cfg, s, e) then s' == s
            else
              && |s'.conns| == |s.conns| + (if e.Connect? && e.outcome.Connected? then 1 else 0)
              && (forall c | 0 <= c < |s.conns| ::
                    s'.conns[c].wire == s.conns[c].wire + if e.Write? && c == last then [s.phase.i] else [])
              && (|s'.conns| > |s.conns| ==> s'.conns[last + 1] == FRESH)
    ensures Enabled(cfg, s, e) && e.Write? ==> s.phase.Sending?
  {
  }

  /** In every run each frame carries a valid token, or what the memory held at first, and the frames
      of a valid token carry that token. */
  lemma {:induction false} CarriedOwn(tokens: seq<string>, cfg: Config, events: seq<Event>)
    ensures OwnTokens(tokens, Run(cfg, Start(), events).conns, Carried(tokens, cfg, events))
    ensures var h := Held(tokens, cfg, events); h == HeldAfter(tokens, Run(cfg, Start(), events), h)
  {
    if events != [] {
      hide Step, OwnTokens, CarriedStep;
      var init := events[..|events| - 1];
      CarriedOwn(tokens, cfg, init);
      HeldValid(tokens, cfg, init);
      OwnTokensStep(tokens, cfg, Run(cfg, Start(), init), events[|events| - 1], Held(tokens, cfg, init),
                    Carried(tokens, cfg, init));
    }
  }

  /** In the first round every frame carries the last valid token up to its own. */
  ghost predicate FirstRound(tokens: seq<string>, s: State, held: int, carried: seq<seq<int>>) {
    && |s.conns| == |carried| == 1 && |s.conns[0].wire| <= |tokens|
    && s.conns[0].wire == seq(|s.conns[0].wire|, k requires 0 <= k < |s.conns[0].wire| => k)
    && carried[0] == seq(|s.conns[0].wire|, k requires 0 <= k < |s.conns[0].wire| => LastValid(tokens, k + 1))
    && !s.phase.Reconnecting?
    && (s.phase.Sending? ==>
          && s.phase.i == |s.conns[0].wire|
          && held == LastValid(tokens, if s.phase.i < |tokens| then s.phase.i + 1 else s.phase.i))
  }

  lemma RoundsGrow(cfg: Config, s: State, e: Event)
    ensures Step(cfg, s, e).rounds >= s.rounds
  {
  }

  lemma FirstRoundStep(tokens: seq<string>, cfg: Config, s: State, e: Event, held: int, carried: seq<seq<int>>)
    requires cfg.count == |tokens| && FirstRound(tokens, s, held, carried) && Step(cfg, s, e).rounds == s.rounds
    ensures var s' := Step(cfg, s, e);
            FirstRound(tokens, s', HeldAfter(tokens, s', held), CarriedStep(cfg, s, e, held, carried))
  {
    hide Tokens.Valid;
    if Enabled(cfg, s, e) && e.Write? {
      assert Written(s).conns[0].wire == s.conns[0].wire + [s.phase.i];
    }
  }

  lemma {:induction false} CarriedFirstRound(tokens: seq<string>, cfg: Config, events: seq<Event>)
    requires cfg.count == |tokens| && Run(cfg, Start(), events).rounds == 0
    ensures FirstRound(tokens, Run(cfg, Start(), events), Held(tokens, cfg, events), Carried(tokens, cfg, events))
  {
    if events == [] {
      hide Tokens.Valid;
      if |tokens| > 0 { assert LastValid(tokens, 1) == if Tokens.Valid(tokens[0]) then 0 else LastValid(tokens, 0); }
    } else {
      hide Step, FirstRound;
      var init := events[..|events| - 1];
      RoundsGrow(cfg, Run(cfg, Start(), init), events[|events| - 1]);
      CarriedFirstRound(tokens, cfg, init);
      FirstRoundStep(tokens, cfg, Run(cfg, Start(), init), events[|events| - 1], Held(tokens, cfg, init),
                     Carried(tokens, cfg, init));
    }
  }

  lemma FirstRoundFrame(tokens: seq<string>, s: State, held: int, carried: seq<seq<int>>, ns: seq<Notification>, k: nat)
    requires FirstRound(tokens, s, held, carried) && FramesCarry(tokens, carried[0], ns) && k < |ns|
    ensures k < |s.conns[0].wire| && s.conns[0].wire[k] == k < |tokens|
    ensures Holds(tokens, LastValid(tokens, k + 1), ns[k].token)
  {
    hide LastValid, Holds, Tokens.Valid;
    assert carried[0][k] == LastValid(tokens, k + 1);
  }
}
