/** What success means.  `apn_send` returns success when nothing became readable during the final
    wait, which does not make sure that the gateway has read what was sent. */
module Success {
  import opened Protocol
  import opened Settled

  /** The final wait ends only when the gateway has accepted all frames of the connection. */
  ghost predicate LongEnough(cfg: Config, s: State, e: Event) {
    e.Quiet? && Enabled(cfg, s, e) ==> Drained(s)
  }

  ghost predicate PatientRun(cfg: Config, events: seq<Event>) {
    Along(cfg, Start(), events, (s, e) => Safe(cfg, s, e) && LongEnough(cfg, s, e))
  }

  /** A safe run that ended in success has settled every index if and only if it has settled what
      its last connection still carried. */
  lemma {:induction false} SuccessExactly(cfg: Config, events: seq<Event>)
    requires cfg.count > 0 && SafeRun(cfg, events) && Run(cfg, Start(), events).phase == Done(Outcome.Success)
    ensures var s := Run(cfg, Start(), events);
            s.conns != [] && (SettledBelow(s, cfg.count) <==> BacklogSettled(s, cfg.count))
  {
    hide Run;
    SettledPrefix(cfg, events);
    BacklogSettles(cfg, Run(cfg, Start(), events), cfg.count);
  }

  ghost predicate DoneSettled(cfg: Config, s: State) {
    s.phase == Done(Outcome.Success) ==> SettledBelow(s, cfg.count)
  }

  lemma {:induction false} QuietSettles(cfg: Config, s: State)
    requires Inv(cfg, s) && s.phase.Sending? && s.phase.i >= cfg.count && Drained(s)
    ensures DoneSettled(cfg, s.(phase := Done(Outcome.Success)))
  {
    BacklogSettles(cfg, s, s.phase.i);
    SettledGrows(s, s.(phase := Done(Outcome.Success)));
    hide IsSettled;
  }

  /** Any other way to success is a refusal behind which no index is left. */
  lemma {:induction false} OtherSuccess(cfg: Config, s: State, e: Event)
    requires !s.phase.Done? && !e.Quiet?
    ensures var s' := Step(cfg, s, e); s'.phase == Done(Outcome.Success) ==> s'.start >= cfg.count
  {
  }

  lemma {:induction false} DoneStays(cfg: Config, s: State, e: Event)
    requires s.phase.Done?
    ensures Step(cfg, s, e).phase == s.phase
  {
  }

  lemma {:induction false} StepDone(cfg: Config, s: State, e: Event)
    requires cfg.count > 0 && Inv(cfg, s) && DoneSettled(cfg, s) && Safe(cfg, s, e) && LongEnough(cfg, s, e)
    ensures DoneSettled(cfg, Step(cfg, s, e))
  {
    StepInv(cfg, s, e);
    if s.phase.Done? {
      DoneStays(cfg, s, e);
      StepGrows(cfg, s, e);
      SettledGrows(s, Step(cfg, s, e));
      hide Step, IsSettled;
    } else if e.Quiet? {
      hide IsSettled;
      if Enabled(cfg, s, e) { QuietSettles(cfg, s); }
    } else {
      OtherSuccess(cfg, s, e);
      hide Step, IsSettled;
    }
  }

  lemma {:induction false} PatientInv(cfg: Config, events: seq<Event>)
    requires cfg.count > 0 && PatientRun(cfg, events)
    ensures SafeRun(cfg, events) && DoneSettled(cfg, Run(cfg, Start(), events))
  {
    hide Step, Safe, LongEnough, Inv, DoneSettled;
    if events == [] {
      StartNotDone(cfg);
    } else {
      var n := |events| - 1;
      PatientInv(cfg, events[..n]);
      SettledPrefix(cfg, events[..n]);
      StepDone(cfg, Run(cfg, Start(), events[..n]), events[n]);
    }
  }

  lemma StartNotDone(cfg: Config)
    ensures DoneSettled(cfg, Start())
  {
  }

  /** Main result: a safe run whose final wait is long enough returns success only after every token
      was accepted, or refused and recorded. */
  lemma {:induction false} SuccessSettlesAll(cfg: Config, events: seq<Event>)
    requires cfg.count > 0 && PatientRun(cfg, events) && Run(cfg, Start(), events).phase == Done(Outcome.Success)
    ensures SettledBelow(Run(cfg, Start(), events), cfg.count)
  {
    PatientInv(cfg, events);
  }
}
