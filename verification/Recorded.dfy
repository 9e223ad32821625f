/** What is recorded as an invalid token: whether the gateway ever refused it. */
module Recorded {
  import opened Protocol
  import opened Settled

  ghost predicate AllRefused(s: State) {
    forall k | 0 <= k < |s.invalid| :: Refused(s, s.invalid[k])
  }

  /** A packet with status 5 does no harm to the record if token 0 was refused anyway. */
  ghost predicate Justified(cfg: Config, s: State, e: Event) {
    ReadsStatusFive(cfg, s, e) ==> Refused(s, 0)
  }

  /** A round that ends without the code "token invalid" records nothing. */
  lemma RecordsOnly(cfg: Config, s: State, e: Event)
    ensures var s' := Step(cfg, s, e);
            || s'.invalid == s.invalid
            || (ReadsStatusFive(cfg, s, e) && s'.invalid == s.invalid + [0])
            || (e.Read? && s.conns != [] && Current(s).gate == Stopped(INVALID_TOKEN, Current(s).gate.id) &&
                s'.invalid == s.invalid + [Current(s).gate.id])
    ensures ReadsStatusFive(cfg, s, e) ==> Step(cfg, s, e).invalid == s.invalid + [0]
  {
  }

  /** Reading leaves the gateway's verdicts as they are. */
  lemma ReadRefuses(cfg: Config, s: State, j: nat)
    requires Refused(Step(cfg, s, Read), j)
    ensures Refused(s, j)
  {
    var s' := Step(cfg, s, Read);
    var c :| 0 <= c < |s'.conns| && s'.conns[c].gate == Stopped(INVALID_TOKEN, j);
    assert s.conns[c].gate == s'.conns[c].gate;
  }

  lemma {:induction false} StepExactly(cfg: Config, s: State, e: Event)
    requires AllRefused(s)
    ensures AllRefused(Step(cfg, s, e)) <==> Justified(cfg, s, e)
  {
    var s' := Step(cfg, s, e);
    RecordsOnly(cfg, s, e);
    StepGrows(cfg, s, e);
    SettledGrows(s, s');
    if ReadsStatusFive(cfg, s, e) {
      assert s'.invalid[|s.invalid|] == 0;
      if Refused(s', 0) { ReadRefuses(cfg, s, 0); }
    } else if s'.invalid != s.invalid {
      assert s.conns[|s.conns| - 1].gate == Stopped(INVALID_TOKEN, Current(s).gate.id);
      assert Refused(s, Current(s).gate.id);
    }
    hide Step, Refused, ReadsStatusFive;
  }

  lemma {:induction false} JustifiedInv(cfg: Config, events: seq<Event>)
    requires Along(cfg, Start(), events, (s, e) => Justified(cfg, s, e))
    ensures AllRefused(Run(cfg, Start(), events))
  {
    hide Step, Justified;
    if events != [] {
      var n := |events| - 1;
      JustifiedInv(cfg, events[..n]);
      StepExactly(cfg, Run(cfg, Start(), events[..n]), events[n]);
    }
  }

  /** Main result, exact for all runs: every recorded index is one the gateway refused, at every
      moment, if and only if no packet with status 5 is read while token 0 has not been refused. */
  lemma {:induction false} RecordedExactly(cfg: Config, events: seq<Event>)
    ensures Throughout(cfg, events, AllRefused) <==> Along(cfg, Start(), events, (s, e) => Justified(cfg, s, e))
  {
    if events == [] {
      ThroughoutNothing(cfg, AllRefused);
      assert AllRefused(Start());
    } else {
      hide Step, Throughout, Justified, AllRefused;
      var n := |events| - 1;
      var init, e := events[..n], events[n];
      assert events == init + [e];
      RecordedExactly(cfg, init);
      ThroughoutSnoc(cfg, init, e, AllRefused);
      if Along(cfg, Start(), init, (s, e) => Justified(cfg, s, e)) {
        JustifiedInv(cfg, init);
        StepExactly(cfg, Run(cfg, Start(), init), e);
      }
    }
  }

  // ----- gateways that do not send status 5

  predicate SendsStatusFive(e: Event) {
    e.Halt? && e.status == INVALID_TOKEN_SIZE
  }

  ghost predicate NoStatusFive(s: State) {
    forall c | 0 <= c < |s.conns| && s.conns[c].gate.Stopped? :: s.conns[c].gate.status != INVALID_TOKEN_SIZE
  }

  lemma StepNoStatusFive(cfg: Config, s: State, e: Event)
    requires NoStatusFive(s) && !SendsStatusFive(e)
    ensures NoStatusFive(Step(cfg, s, e)) && !ReadsStatusFive(cfg, s, e)
  {
  }

  lemma {:induction false} NeverStatusFive(cfg: Config, events: seq<Event>)
    requires forall e | e in events :: !SendsStatusFive(e)
    ensures NoStatusFive(Run(cfg, Start(), events))
    ensures Along(cfg, Start(), events, (s, e) => !ReadsStatusFive(cfg, s, e))
  {
    if events != [] {
      hide Step, NoStatusFive, ReadsStatusFive;
      var n := |events| - 1;
      assert events[n] in events && forall e | e in events[..n] :: e in events;
      NeverStatusFive(cfg, events[..n]);
      StepNoStatusFive(cfg, Run(cfg, Start(), events[..n]), events[n]);
    } else {
      assert NoStatusFive(Start());
    }
  }

  lemma {:induction false} NeverJustified(cfg: Config, events: seq<Event>)
    requires Along(cfg, Start(), events, (s, e) => !ReadsStatusFive(cfg, s, e))
    ensures Along(cfg, Start(), events, (s, e) => Justified(cfg, s, e))
  {
    hide Step, ReadsStatusFive;
    if events != [] { NeverJustified(cfg, events[..|events| - 1]); }
  }

  /** Without status 5, in every run and whatever else fails, every recorded index was refused. */
  lemma {:induction false} RecordedRefused(cfg: Config, events: seq<Event>)
    requires forall e | e in events :: !SendsStatusFive(e)
    ensures Throughout(cfg, events, AllRefused) && AllRefused(Run(cfg, Start(), events))
  {
    hide Step, Run;
    NeverStatusFive(cfg, events);
    NeverJustified(cfg, events);
    RecordedExactly(cfg, events);
    JustifiedInv(cfg, events);
  }

  /** and the prefix is safe if read failures find their connections drained. */
  lemma {:induction false} DrainedPrefix(cfg: Config, events: seq<Event>)
    requires cfg.count > 0 && forall e | e in events :: !SendsStatusFive(e)
    requires Along(cfg, Start(), events, (s, e) => DrainedReads(cfg, s, e))
    ensures SafeRun(cfg, events) && Throughout(cfg, events, PrefixSettled)
  {
    NeverStatusFive(cfg, events);
    Both(cfg, events);
    DrainedReadsSuffice(cfg, events);
  }

  lemma {:induction false} Both(cfg: Config, events: seq<Event>)
    requires Along(cfg, Start(), events, (s, e) => DrainedReads(cfg, s, e))
    requires Along(cfg, Start(), events, (s, e) => !ReadsStatusFive(cfg, s, e))
    ensures Along(cfg, Start(), events, (s, e) => DrainedReads(cfg, s, e) && !ReadsStatusFive(cfg, s, e))
  {
    hide Step, DrainedReads, ReadsStatusFive;
    if events != [] { Both(cfg, events[..|events| - 1]); }
  }

  // ----- up to the last record

  /** The length of the run up to the last event that recorded a token. */
  ghost function LastRecording(cfg: Config, events: seq<Event>): (k: nat)
    ensures k <= |events|
  {
    if events == [] then 0
    else
      var init := events[..|events| - 1];
      if Run(cfg, Start(), events).invalid == Run(cfg, Start(), init).invalid then LastRecording(cfg, init) else |events|
  }

  /** What happens behind it takes nothing back. */
  lemma {:induction false} AfterLastRecording(cfg: Config, events: seq<Event>)
    ensures var s, t := Run(cfg, Start(), events[..LastRecording(cfg, events)]), Run(cfg, Start(), events);
            t.invalid == s.invalid && forall j: nat | IsSettled(s, j) :: IsSettled(t, j)
  {
    hide Step, IsSettled;
    var k := LastRecording(cfg, events);
    if k == |events| {
      assert events[..k] == events;
    } else {
      var n := |events| - 1;
      AfterLastRecording(cfg, events[..n]);
      assert events[..n][..k] == events[..k];
      StepGrows(cfg, Run(cfg, Start(), events[..n]), events[n]);
      SettledGrows(Run(cfg, Start(), events[..n]), Run(cfg, Start(), events));
    }
  }

  /** Faults behind the last record do not matter to what lies before it: if the run was safe up to
      there, everything up to the last recorded index is settled. */
  lemma {:induction false} RecordedPrefix(cfg: Config, events: seq<Event>)
    requires cfg.count > 0 && SafeRun(cfg, events[..LastRecording(cfg, events)])
    requires Run(cfg, Start(), events).invalid != []
    ensures var s := Run(cfg, Start(), events); SettledBelow(s, s.invalid[|s.invalid| - 1] + 1)
  {
    hide Run, IsSettled;
    AfterLastRecording(cfg, events);
    SettledPrefix(cfg, events[..LastRecording(cfg, events)]);
  }
}
