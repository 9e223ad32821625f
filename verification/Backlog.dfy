/** The exact conditions of `Settled` and `Success` seen from outside.  As long as the resume index
    was never reset, every connection carries a stretch of the batch of its own, and what is settled
    can be read off the connections: how many frames the gateway accepted, and whether its refusal
    was read. */
module Backlog {
  import opened Protocol
  import opened Settled
  import Success

  /** The client has read the connection's error packet. */
  predicate Seen(c: Conn) {
    c.gate.Stopped? && !c.unread
  }

  predicate AllTaken(c: Conn) {
    c.taken == |c.wire|
  }

  /** Of a connection that carries the batch from `b` on: the end of what is settled, and the index
      at which the next connection goes on. */
  function SettledEnd(c: Conn, b: nat): nat {
    b + c.taken + if Seen(c) then 1 else 0
  }

  function Beyond(c: Conn, b: nat): nat {
    if Seen(c) then SettledEnd(c, b) else b + |c.wire|
  }

  ghost predicate Placed(c: Conn, b: nat) {
    && Shape(c)
    && (c.unread ==> c.gate.Stopped?)
    && (Seen(c) ==> c.gate.status == INVALID_TOKEN)
    && (forall k | 0 <= k < |c.wire| && (Seen(c) ==> k <= c.taken) :: c.wire[k] == b + k)
  }

  /** Each connection begins where the one before it ended. */
  ghost predicate Chain(conns: seq<Conn>, bases: seq<nat>) {
    && |bases| == |conns| > 0 && bases[0] == 0
    && (forall c | 0 <= c < |conns| :: Placed(conns[c], bases[c]))
    && (forall c | 0 <= c < |conns| - 1 :: bases[c + 1] == Beyond(conns[c], bases[c]))
  }

  ghost predicate Has(conns: seq<Conn>, bases: seq<nat>, j: nat)
    requires |bases| == |conns|
  {
    exists c | 0 <= c < |conns| :: bases[c] <= j < bases[c] + conns[c].taken
  }

  ghost predicate Marks(conns: seq<Conn>, bases: seq<nat>, j: nat)
    requires |bases| == |conns|
  {
    exists c | 0 <= c < |conns| :: Seen(conns[c]) && j == bases[c] + conns[c].taken
  }

  ghost predicate LastSeen(conns: seq<Conn>, bases: seq<nat>, j: nat)
    requires |bases| == |conns|
  {
    exists c | 0 <= c < |conns| ::
      && Seen(conns[c]) && j == bases[c] + conns[c].taken
      && forall d | c < d < |conns| :: !Seen(conns[d])
  }

  ghost predicate Books(s: State, bases: seq<nat>)
    requires |bases| == |s.conns|
  {
    && (forall j: nat :: j in s.log <==> Has(s.conns, bases, j))
    && (forall j: nat :: j in s.invalid <==> Marks(s.conns, bases, j))
    && (s.invalid != [] ==> LastSeen(s.conns, bases, s.invalid[|s.invalid| - 1]))
  }

  ghost predicate Position(cfg: Config, s: State, b: nat)
    requires s.conns != []
  {
    && (s.autoReconnect ==> cfg.reconnect)
    && Beyond(Current(s), b) <= cfg.count
    && match s.phase
       case Sending(i) => if Seen(Current(s)) then !cfg.reconnect else i == Beyond(Current(s), b)
       case Reconnecting => s.start == Beyond(Current(s), b) < cfg.count
       case Done(outcome) =>
         && (cfg.reconnect && Seen(Current(s)) ==> s.start == Beyond(Current(s), b))
         && (outcome == Outcome.Success && (cfg.reconnect || !Seen(Current(s))) ==> Beyond(Current(s), b) == cfg.count)
  }

  /** The picture of a run without resets. */
  ghost predicate OnePass(cfg: Config, s: State, bases: seq<nat>) {
    && Chain(s.conns, bases)
    && Books(s, bases)
    && Position(cfg, s, bases[|bases| - 1])
  }

  // ----- it is kept

  /** One connection changes, with its stretch staying where it is. */
  lemma ChainUpdate(conns: seq<Conn>, bases: seq<nat>, c: nat, conn: Conn)
    requires Chain(conns, bases) && c < |conns| && Placed(conn, bases[c])
    requires c < |conns| - 1 ==> Beyond(conn, bases[c]) == Beyond(conns[c], bases[c])
    ensures Chain(conns[c := conn], bases)
  {
  }

  lemma BooksSame(s: State, s': State, bases: seq<nat>)
    requires |bases| == |s.conns| == |s'.conns| && Books(s, bases)
    requires s'.log == s.log && s'.invalid == s.invalid
    requires forall c | 0 <= c < |s.conns| :: s'.conns[c].taken == s.conns[c].taken && Seen(s'.conns[c]) == Seen(s.conns[c])
    ensures Books(s', bases)
  {
    hide Seen;
    forall j: nat ensures Has(s'.conns, bases, j) <==> Has(s.conns, bases, j) {
      if Has(s.conns, bases, j) {
        var c :| 0 <= c < |s.conns| && bases[c] <= j < bases[c] + s.conns[c].taken;
        assert bases[c] <= j < bases[c] + s'.conns[c].taken;
      }
    }
    forall j: nat ensures Marks(s'.conns, bases, j) <==> Marks(s.conns, bases, j) {
      if Marks(s.conns, bases, j) {
        var c :| 0 <= c < |s.conns| && Seen(s.conns[c]) && j == bases[c] + s.conns[c].taken;
        assert Seen(s'.conns[c]);
      }
    }
    if s.invalid != [] {
      var j := s.invalid[|s.invalid| - 1];
      var c :| 0 <= c < |s.conns| && Seen(s.conns[c]) && j == bases[c] + s.conns[c].taken &&
               forall d | c < d < |s.conns| :: !Seen(s.conns[d]);
      assert Seen(s'.conns[c]);
    }
  }

  /** An accepted frame is the next index of its stretch. */
  lemma BooksAccept(s: State, bases: seq<nat>, c: nat)
    requires |bases| == |s.conns| && Books(s, bases) && c < |s.conns|
    requires s.conns[c].gate.Open? && s.conns[c].taken < |s.conns[c].wire|
    requires s.conns[c].wire[s.conns[c].taken] == bases[c] + s.conns[c].taken
    ensures Books(Judged(s, c, true), bases)
  {
    var s' := Judged(s, c, true);
    var id := s.conns[c].wire[s.conns[c].taken];
    forall j: nat ensures Has(s'.conns, bases, j) <==> Has(s.conns, bases, j) || j == id {
      if Has(s.conns, bases, j) {
        var d :| 0 <= d < |s.conns| && bases[d] <= j < bases[d] + s.conns[d].taken;
        assert bases[d] <= j < bases[d] + s'.conns[d].taken;
      }
      if j == id { assert bases[c] <= j < bases[c] + s'.conns[c].taken; }
    }
    forall j: nat ensures Marks(s'.conns, bases, j) <==> Marks(s.conns, bases, j) {
      if Marks(s.conns, bases, j) {
        var d :| 0 <= d < |s.conns| && Seen(s.conns[d]) && j == bases[d] + s.conns[d].taken;
        assert Seen(s'.conns[d]);
      }
    }
    if s.invalid != [] {
      var j := s.invalid[|s.invalid| - 1];
      var d :| 0 <= d < |s.conns| && Seen(s.conns[d]) && j == bases[d] + s.conns[d].taken &&
               forall e | d < e < |s.conns| :: !Seen(s.conns[e]);
      assert Seen(s'.conns[d]);
    }
  }

  /** A read refusal settles the next index of the current stretch. */
  lemma BooksRead(s: State, s': State, bases: seq<nat>)
    requires |bases| == |s.conns| == |s'.conns| > 0 && Books(s, bases)
    requires s'.conns == s.conns[|s.conns| - 1 := Current(s')] && Current(s').taken == Current(s).taken
    requires !Seen(Current(s)) && Seen(Current(s'))
    requires s'.log == s.log && s'.invalid == s.invalid + [bases[|bases| - 1] + Current(s).taken]
    ensures Books(s', bases)
  {
    hide Seen;
    var last := |bases| - 1;
    var id := bases[last] + Current(s).taken;
    forall j: nat ensures Has(s'.conns, bases, j) <==> Has(s.conns, bases, j) {
      if Has(s.conns, bases, j) {
        var c :| 0 <= c < |s.conns| && bases[c] <= j < bases[c] + s.conns[c].taken;
        assert bases[c] <= j < bases[c] + s'.conns[c].taken;
      }
    }
    forall j: nat ensures Marks(s'.conns, bases, j) <==> Marks(s.conns, bases, j) || j == id {
      if Marks(s.conns, bases, j) {
        var c :| 0 <= c < |s.conns| && Seen(s.conns[c]) && j == bases[c] + s.conns[c].taken;
        assert Seen(s'.conns[c]);
      }
      if j == id { assert Seen(s'.conns[last]); }
    }
    assert Seen(s'.conns[last]) && s'.invalid[|s'.invalid| - 1] == id;
  }

  lemma BooksAppend(s: State, s': State, bases: seq<nat>, b: nat)
    requires |bases| == |s.conns| && Books(s, bases)
    requires s'.conns == s.conns + [FRESH] && s'.log == s.log && s'.invalid == s.invalid
    ensures Books(s', bases + [b])
  {
    var bases' := bases + [b];
    forall j: nat ensures Has(s'.conns, bases', j) <==> Has(s.conns, bases, j) {
      if Has(s.conns, bases, j) {
        var c :| 0 <= c < |s.conns| && bases[c] <= j < bases[c] + s.conns[c].taken;
        assert bases'[c] <= j < bases'[c] + s'.conns[c].taken;
      }
    }
    forall j: nat ensures Marks(s'.conns, bases', j) <==> Marks(s.conns, bases, j) {
      if Marks(s.conns, bases, j) {
        var c :| 0 <= c < |s.conns| && Seen(s.conns[c]) && j == bases[c] + s.conns[c].taken;
        assert Seen(s'.conns[c]) && j == bases'[c] + s'.conns[c].taken;
      }
    }
    if s.invalid != [] {
      var j := s.invalid[|s.invalid| - 1];
      var c :| 0 <= c < |s.conns| && Seen(s.conns[c]) && j == bases[c] + s.conns[c].taken &&
               forall d | c < d < |s.conns| :: !Seen(s.conns[d]);
      assert Seen(s'.conns[c]) && j == bases'[c] + s'.conns[c].taken;
    }
  }

  lemma {:induction false} JudgePass(cfg: Config, s: State, bases: seq<nat>, c: nat, accept: bool)
    requires OnePass(cfg, s, bases) && c < |s.conns| && s.conns[c].gate.Open? && s.conns[c].taken < |s.conns[c].wire|
    ensures OnePass(cfg, Judged(s, c, accept), bases)
  {
    hide Has, Marks, LastSeen;
    var s' := Judged(s, c, accept);
    assert Placed(s.conns[c], bases[c]);
    if accept { BooksAccept(s, bases, c); } else { BooksSame(s, s', bases); }
    ChainUpdate(s.conns, bases, c, s'.conns[c]);
    hide Books, Chain;
  }

  lemma {:induction false} HaltPass(cfg: Config, s: State, bases: seq<nat>, c: nat, status: int)
    requires OnePass(cfg, s, bases) && c < |s.conns| && s.conns[c].gate.Open? && status != INVALID_TOKEN
    ensures OnePass(cfg, Halted(s, c, status), bases)
  {
    var s' := Halted(s, c, status);
    assert Placed(s.conns[c], bases[c]);
    BooksSame(s, s', bases);
    ChainUpdate(s.conns, bases, c, s'.conns[c]);
    hide Books, Chain;
  }

  lemma {:induction false} WritePass(cfg: Config, s: State, bases: seq<nat>)
    requires OnePass(cfg, s, bases) && s.phase.Sending? && s.phase.i < cfg.count
    ensures OnePass(cfg, Written(s), bases)
  {
    var s', last := Written(s), |bases| - 1;
    assert Placed(Current(s), bases[last]) && Current(s').wire == Current(s).wire + [s.phase.i];
    BooksSame(s, s', bases);
    ChainUpdate(s.conns, bases, last, Current(s'));
    hide Books, Chain;
  }

  lemma {:induction false} ReadPass(cfg: Config, s: State, bases: seq<nat>)
    requires OnePass(cfg, s, bases) && Enabled(cfg, s, Read) && Current(s).gate.status == INVALID_TOKEN
    ensures OnePass(cfg, PacketRead(cfg, s), bases)
  {
    var s', last := PacketRead(cfg, s), |bases| - 1;
    assert Placed(Current(s), bases[last]);
    BooksRead(s, s', bases);
    ChainUpdate(s.conns, bases, last, Current(s'));
    hide Books, Chain;
  }

  lemma {:induction false} ReadFailPass(cfg: Config, s: State, bases: seq<nat>, error: Error)
    requires OnePass(cfg, s, bases) && s.phase.Sending? && !error.TokenInvalid?
    ensures OnePass(cfg, EndRound(cfg, s, error, s.phase.i, false), bases)
  {
    BooksSame(s, EndRound(cfg, s, error, s.phase.i, false), bases);
    hide Books, Chain;
  }

  lemma {:induction false} ConnectPass(cfg: Config, s: State, bases: seq<nat>, outcome: ConnectOutcome)
    requires OnePass(cfg, s, bases) && s.phase.Reconnecting?
    ensures OnePass(cfg, Reconnected(s, outcome), if outcome.Connected? then bases + [s.start] else bases)
  {
    var s' := Reconnected(s, outcome);
    if outcome.Connected? {
      BooksAppend(s, s', bases, s.start);
      var bases' := bases + [s.start];
      forall c | 0 <= c < |s'.conns| ensures Placed(s'.conns[c], bases'[c]) {
        assert c < |s.conns| ==> Placed(s.conns[c], bases[c]);
      }
      hide Books;
    } else {
      BooksSame(s, s', bases);
      hide Books, Chain;
    }
  }

  lemma {:induction false} QuietPass(cfg: Config, s: State, bases: seq<nat>)
    requires OnePass(cfg, s, bases) && s.phase.Sending? && s.phase.i >= cfg.count
    ensures OnePass(cfg, s.(phase := Done(Outcome.Success)), bases)
  {
    BooksSame(s, s.(phase := Done(Outcome.Success)), bases);
    hide Books, Chain;
  }

  lemma ResetCounts(cfg: Config, s: State, error: Error, index: nat)
    ensures EndRound(cfg, s, error, index, true).resets == s.resets + 1
  {
  }

  /** A step without a reset keeps the picture. */
  lemma {:induction false} StepPass(cfg: Config, s: State, bases: seq<nat>, e: Event) returns (bases': seq<nat>)
    requires OnePass(cfg, s, bases) && Step(cfg, s, e).resets == s.resets
    ensures OnePass(cfg, Step(cfg, s, e), bases')
  {
    hide EndRound, Judged, OnePass, PacketRead, Written, Halted, Reconnected;
    bases' := bases;
    if Enabled(cfg, s, e) {
      match e
      case Judge(c, accept) => JudgePass(cfg, s, bases, c, accept);
      case Halt(_, _) => HaltPass(cfg, s, bases, e.conn, e.status);
      case Write(_) => WritePass(cfg, s, bases);
      case WriteFail(_, error) => ResetCounts(cfg, Flagged(s, Current(s).unread, true), error, 0);
      case SelectFail(code) => ResetCounts(cfg, s, Sys(code), 0);
      case Read => ReadResets(cfg, s); if Current(s).gate.status == INVALID_TOKEN { ReadPass(cfg, s, bases); }
      case ReadFail(error) => ReadFailPass(cfg, s, bases, error);
      case Quiet => QuietPass(cfg, s, bases);
      case Connect(outcome) =>
        ConnectPass(cfg, s, bases, outcome);
        bases' := if outcome.Connected? then bases + [s.start] else bases;
    }
  }

  lemma ReadResets(cfg: Config, s: State)
    requires s.conns != [] && Current(s).gate.Stopped?
    ensures Current(s).gate.status != INVALID_TOKEN ==> PacketRead(cfg, s).resets == s.resets + 1
  {
  }

  lemma ResetsGrow(cfg: Config, s: State, e: Event)
    ensures Step(cfg, s, e).resets >= s.resets
    ensures ReadsStatusFive(cfg, s, e) ==> Step(cfg, s, e).resets > s.resets
  {
  }

  lemma StartPass(cfg: Config)
    ensures OnePass(cfg, Start(), [0])
  {
  }

  lemma {:induction false} RunPass(cfg: Config, events: seq<Event>) returns (bases: seq<nat>)
    requires Run(cfg, Start(), events).resets == 0
    ensures OnePass(cfg, Run(cfg, Start(), events), bases)
  {
    hide Step, OnePass;
    bases := [0];
    if events == [] {
      StartPass(cfg);
    } else {
      var n := |events| - 1;
      ResetsGrow(cfg, Run(cfg, Start(), events[..n]), events[n]);
      bases := RunPass(cfg, events[..n]);
      bases := StepPass(cfg, Run(cfg, Start(), events[..n]), bases, events[n]);
    }
  }

  // ----- what is settled

  /** Later stretches begin behind earlier ones. */
  lemma {:induction false} StretchesOrdered(conns: seq<Conn>, bases: seq<nat>, c: nat, d: nat)
    requires Chain(conns, bases) && c < d < |conns|
    ensures bases[c] <= SettledEnd(conns[c], bases[c]) <= Beyond(conns[c], bases[c]) <= bases[d]
  {
    assert Placed(conns[c], bases[c]) && Placed(conns[d - 1], bases[d - 1]);
    if c < d - 1 { StretchesOrdered(conns, bases, c, d - 1); }
  }

  /** An index within the stretch of a connection is settled if and only if it was settled there. */
  lemma {:induction false} StretchSettled(s: State, bases: seq<nat>, c: nat, j: nat)
    requires Chain(s.conns, bases) && Books(s, bases) && c < |s.conns|
    requires bases[c] <= j < Beyond(s.conns[c], bases[c])
    ensures IsSettled(s, j) <==> j < SettledEnd(s.conns[c], bases[c])
  {
    assert Placed(s.conns[c], bases[c]);
    if j < bases[c] + s.conns[c].taken {
      assert Has(s.conns, bases, j);
    } else if j < SettledEnd(s.conns[c], bases[c]) {
      assert Marks(s.conns, bases, j) && s.conns[c].gate == Stopped(INVALID_TOKEN, j);
    } else if IsSettled(s, j) {
      var d :| 0 <= d < |s.conns| && bases[d] <= j < SettledEnd(s.conns[d], bases[d]);
      assert d != c;
      if d < c { StretchesOrdered(s.conns, bases, d, c); } else { StretchesOrdered(s.conns, bases, c, d); }
    }
  }

  ghost predicate Finished(c: Conn) {
    Seen(c) || AllTaken(c)
  }

  /** Everything before a connection's stretch is settled if and only if the refusals of all earlier
      connections were read, or all their frames accepted. */
  lemma {:induction false} BeforeExactly(s: State, bases: seq<nat>, c: nat)
    requires Chain(s.conns, bases) && Books(s, bases) && c < |s.conns|
    ensures SettledBelow(s, bases[c]) <==> forall d | 0 <= d < c :: Finished(s.conns[d])
  {
    hide Books, IsSettled;
    if c > 0 {
      BeforeExactly(s, bases, c - 1);
      StretchExactly(s, bases, c - 1);
      assert Placed(s.conns[c - 1], bases[c - 1]) && bases[c] == Beyond(s.conns[c - 1], bases[c - 1]);
    }
  }

  /** The stretch of one connection is settled if and only if the connection is finished. */
  lemma {:induction false} StretchExactly(s: State, bases: seq<nat>, c: nat)
    requires Chain(s.conns, bases) && Books(s, bases) && c < |s.conns|
    ensures (forall j: nat | bases[c] <= j < Beyond(s.conns[c], bases[c]) :: IsSettled(s, j)) <==> Finished(s.conns[c])
    ensures forall j: nat | bases[c] <= j < SettledEnd(s.conns[c], bases[c]) :: IsSettled(s, j)
  {
    hide IsSettled, Books;
    assert Placed(s.conns[c], bases[c]);
    forall j: nat | bases[c] <= j < Beyond(s.conns[c], bases[c])
      ensures IsSettled(s, j) <==> j < SettledEnd(s.conns[c], bases[c])
    {
      StretchSettled(s, bases, c, j);
    }
    if !Finished(s.conns[c]) {
      assert !IsSettled(s, SettledEnd(s.conns[c], bases[c]));
    }
  }

  ghost predicate AllFinished(s: State) {
    forall c | 0 <= c < |s.conns| :: Finished(s.conns[c])
  }

  lemma {:induction false} ReachedExactly(s: State, bases: seq<nat>)
    requires Chain(s.conns, bases) && Books(s, bases)
    ensures SettledBelow(s, Beyond(Current(s), bases[|bases| - 1])) <==> AllFinished(s)
  {
    hide Books, IsSettled;
    var last := |bases| - 1;
    BeforeExactly(s, bases, last);
    StretchExactly(s, bases, last);
    assert bases[last] <= Beyond(Current(s), bases[last]) by { assert Placed(s.conns[last], bases[last]); }
    if AllFinished(s) {
      forall j: nat | j < Beyond(Current(s), bases[last]) ensures IsSettled(s, j) {
        assert j < bases[last] || bases[last] <= j;
      }
    }
  }

  /** Every connection up to the last one whose refusal was read is finished. */
  ghost predicate FinishedBeforeSeen(s: State) {
    forall c, d | 0 <= c < d < |s.conns| && Seen(s.conns[d]) :: Finished(s.conns[c])
  }

  /** What a batch has recorded so far speaks for everything up to there if and only if no connection
      before the last refusal that was read left frames behind. */
  lemma {:induction false} RecordedPrefixExactly(cfg: Config, events: seq<Event>)
    requires var s := Run(cfg, Start(), events); s.resets == 0 && s.invalid != []
    ensures var s := Run(cfg, Start(), events);
            SettledBelow(s, s.invalid[|s.invalid| - 1] + 1) <==> FinishedBeforeSeen(s)
  {
    hide Run;
    var s := Run(cfg, Start(), events);
    var bases := RunPass(cfg, events);
    var j := s.invalid[|s.invalid| - 1];
    var c :| 0 <= c < |s.conns| && Seen(s.conns[c]) && j == bases[c] + s.conns[c].taken &&
             forall d | c < d < |s.conns| :: !Seen(s.conns[d]);
    StretchPrefix(s, bases, c);
    hide IsSettled, Books, Chain, SettledBelow;
    assert FinishedBeforeSeen(s) <==> forall d | 0 <= d < c :: Finished(s.conns[d]);
  }

  lemma {:induction false} StretchPrefix(s: State, bases: seq<nat>, c: nat)
    requires Chain(s.conns, bases) && Books(s, bases) && c < |s.conns|
    ensures SettledBelow(s, SettledEnd(s.conns[c], bases[c])) <==> forall d | 0 <= d < c :: Finished(s.conns[d])
  {
    hide IsSettled, Books;
    BeforeExactly(s, bases, c);
    StretchExactly(s, bases, c);
    if SettledBelow(s, bases[c]) {
      forall j: nat | j < SettledEnd(s.conns[c], bases[c]) ensures IsSettled(s, j) {
        assert j < bases[c] || bases[c] <= j;
      }
    }
  }

  /** Nothing is settled beyond the last stretch. */
  lemma {:induction false} NothingBeyond(s: State, bases: seq<nat>, j: nat)
    requires Chain(s.conns, bases) && Books(s, bases) && Beyond(Current(s), bases[|bases| - 1]) <= j
    ensures !IsSettled(s, j)
  {
    var last := |bases| - 1;
    forall d | 0 <= d < |s.conns| ensures bases[d] <= SettledEnd(s.conns[d], bases[d]) <= j {
      assert Placed(s.conns[d], bases[d]);
      if d < last {
        StretchesOrdered(s.conns, bases, d, last);
        assert Placed(s.conns[last], bases[last]);
      }
    }
    assert !Has(s.conns, bases, j) && !Marks(s.conns, bases, j);
  }

  /** The same for the resume index, when a new connection is about to be opened. */
  lemma {:induction false} ResumeExactly(cfg: Config, events: seq<Event>)
    requires var s := Run(cfg, Start(), events); s.resets == 0 && s.phase.Reconnecting?
    ensures var s := Run(cfg, Start(), events); PrefixSettled(s) <==> AllFinished(s)
  {
    hide Run;
    var bases := RunPass(cfg, events);
    ReachedExactly(Run(cfg, Start(), events), bases);
  }

  /** Main result: a run without resets that ended in success, with the reconnect option or without,
      has settled every index if and only if on each connection the refusal was read or all frames
      were accepted, and a refusal read on the last one was that of the last token. */
  lemma {:induction false} SuccessExactlySeen(cfg: Config, events: seq<Event>)
    requires var s := Run(cfg, Start(), events); s.resets == 0 && s.phase == Done(Outcome.Success)
    ensures var s := Run(cfg, Start(), events);
            && s.conns != []
            && (SettledBelow(s, cfg.count) <==>
                AllFinished(s) && (Seen(Current(s)) ==> Current(s).gate.id + 1 == cfg.count))
  {
    hide Run;
    var s := Run(cfg, Start(), events);
    var bases := RunPass(cfg, events);
    var last := |bases| - 1;
    ReachedExactly(s, bases);
    assert Placed(s.conns[last], bases[last]);
    var end := Beyond(Current(s), bases[last]);
    NothingBeyond(s, bases, end);
    hide IsSettled, Books, Chain, AllFinished;
    assert end < cfg.count ==> !SettledBelow(s, cfg.count);
  }

  // ----- the exact conditions of `Settled` and `Success`

  /** With the option, the backlog of a connection is settled if and only if it is empty. */
  lemma {:induction false} DrainedExactly(cfg: Config, s: State, bases: seq<nat>)
    requires cfg.reconnect && OnePass(cfg, s, bases) && s.phase.Sending?
    ensures BacklogSettled(s, s.phase.i) <==> Drained(s)
  {
    var last, cur := |bases| - 1, Current(s);
    assert Placed(cur, bases[last]);
    if !Drained(s) {
      StretchSettled(s, bases, last, cur.wire[cur.taken]);
    }
    hide IsSettled;
  }

  lemma {:induction false} SafeIsDrained(cfg: Config, events: seq<Event>)
    requires cfg.reconnect && Run(cfg, Start(), events).resets == 0
    ensures SafeRun(cfg, events) <==> Along(cfg, Start(), events, (s, e) => DrainedReads(cfg, s, e))
  {
    if events != [] {
      hide Step, OnePass, BacklogSettled, Drained;
      var n := |events| - 1;
      var s, e := Run(cfg, Start(), events[..n]), events[n];
      ResetsGrow(cfg, s, e);
      SafeIsDrained(cfg, events[..n]);
      if e.ReadFail? && Enabled(cfg, s, e) {
        var bases := RunPass(cfg, events[..n]);
        DrainedExactly(cfg, s, bases);
      }
    }
  }

  /** Main result: with the reconnect option set and as long as no round was reset, the prefix is
      settled throughout if and only if every read failure strikes a drained connection. */
  lemma {:induction false} SettledExactlyWhenDrained(cfg: Config, events: seq<Event>)
    requires cfg.count > 0 && cfg.reconnect && Run(cfg, Start(), events).resets == 0
    ensures Throughout(cfg, events, PrefixSettled) <==>
            Along(cfg, Start(), events, (s, e) => DrainedReads(cfg, s, e))
  {
    SettledExactly(cfg, events);
    SafeIsDrained(cfg, events);
  }

  /** Such a run that ended in success has settled every index if and only if it ended with the
      refusal of the last token, or the gateway has accepted all the last connection carried. */
  lemma {:induction false} SuccessExactlyWhenDrained(cfg: Config, events: seq<Event>)
    requires cfg.count > 0 && cfg.reconnect && Run(cfg, Start(), events).resets == 0
    requires Along(cfg, Start(), events, (s, e) => DrainedReads(cfg, s, e))
    requires Run(cfg, Start(), events).phase == Done(Outcome.Success)
    ensures var s := Run(cfg, Start(), events);
            s.conns != [] && (SettledBelow(s, cfg.count) <==> s.start == cfg.count || Drained(s))
  {
    hide Run;
    var s := Run(cfg, Start(), events);
    SafeIsDrained(cfg, events);
    SettledPrefix(cfg, events);
    Success.SuccessExactly(cfg, events);
    SuccessExactlySeen(cfg, events);
    var bases := RunPass(cfg, events);
    assert Placed(Current(s), bases[|bases| - 1]);
    hide IsSettled, Books, Chain;
  }
}
