/** Exactly-once delivery.  The only faults are refusals of bad tokens, the option
    to reconnect is set and reconnecting works, and a verdict still outstanding
    shows before the final wait is over.  Then every schedule of verdicts, writes
    and reads ends in success, with each good token accepted once, in order, and
    exactly the bad ones reported. */
module ExactlyOnce {
  import opened Protocol

  /** The indices below `n` that are good, and those that are bad, in increasing order. */
  function GoodBelow(bad: set<nat>, n: nat): seq<nat> {
    if n == 0 then [] else if n - 1 in bad then GoodBelow(bad, n - 1) else GoodBelow(bad, n - 1) + [n - 1]
  }

  function BadBelow(bad: set<nat>, n: nat): seq<nat> {
    if n == 0 then [] else if n - 1 in bad then BadBelow(bad, n - 1) + [n - 1] else BadBelow(bad, n - 1)
  }

  ghost predicate Increasing(s: seq<nat>) {
    forall i, j | 0 <= i < j < |s| :: s[i] < s[j]
  }

  lemma {:induction false} GoodMeaning(bad: set<nat>, n: nat)
    ensures Increasing(GoodBelow(bad, n)) && forall j: nat :: j in GoodBelow(bad, n) <==> j < n && j !in bad
  {
    if n > 0 {
      GoodMeaning(bad, n - 1);
      var g := GoodBelow(bad, n - 1);
      assert forall k | 0 <= k < |g| :: g[k] in g;
    }
  }

  lemma {:induction false} BadMeaning(bad: set<nat>, n: nat)
    ensures Increasing(BadBelow(bad, n)) && forall j: nat :: j in BadBelow(bad, n) <==> j < n && j in bad
  {
    if n > 0 {
      BadMeaning(bad, n - 1);
      var b := BadBelow(bad, n - 1);
      assert forall k | 0 <= k < |b| :: b[k] in b;
    }
  }

  lemma {:induction false} Partition(bad: set<nat>, n: nat)
    ensures |GoodBelow(bad, n)| + |BadBelow(bad, n)| == n
  {
    if n > 0 { Partition(bad, n - 1); }
  }

  /** A stretch of good indices adds no bad one. */
  lemma {:induction false} GoodStretch(bad: set<nat>, a: nat, b: nat)
    requires a <= b && forall j: nat | a <= j < b :: j !in bad
    ensures BadBelow(bad, b) == BadBelow(bad, a)
  {
    if a < b { GoodStretch(bad, a, b - 1); }
  }

  /** Rejection-only schedules: what may happen next in state `s`. */
  ghost predicate Benign(cfg: Config, bad: set<nat>, s: State, e: Event) {
    Enabled(cfg, s, e) ==>
      match e
      case Judge(c, accept) => accept <==> s.conns[c].wire[s.conns[c].taken] !in bad
      case Write(_) => true
      case Read => true
      // the final wait is long enough: nothing is left to judge and no error is on its way
      case Quiet => Current(s).gate.Open? && Current(s).taken == |Current(s).wire|
      case Connect(outcome) => outcome.Connected?
      case _ => false
  }

  ghost predicate RoundOk(cfg: Config, bad: set<nat>, s: State)
    requires s.conns != [] && s.phase.Sending?
  {
    var cur := Current(s);
    && s.start <= s.phase.i <= cfg.count
    && |cur.wire| == s.phase.i - s.start
    && (forall k | 0 <= k < |cur.wire| :: cur.wire[k] == s.start + k)
    && cur.taken <= |cur.wire|
    && (forall j: nat | s.start <= j < s.start + cur.taken :: j !in bad)
    && s.log == GoodBelow(bad, s.start + cur.taken)
    && !cur.torn
    && (if cur.gate.Open? then !cur.unread
        else cur.unread && cur.taken < |cur.wire| && s.start + cur.taken in bad &&
             cur.gate == Stopped(INVALID_TOKEN, s.start + cur.taken))
  }

  ghost predicate Inv(cfg: Config, bad: set<nat>, s: State) {
    && s.conns != []
    && (forall c | 0 <= c < |s.conns| - 1 :: s.conns[c].gate.Stopped?)
    && s.start <= cfg.count
    && match s.phase
       case Sending(i) => RoundOk(cfg, bad, s) && s.invalid == BadBelow(bad, s.start)
       case Reconnecting =>
         && Current(s).gate.Stopped? && s.start < cfg.count
         && s.log == GoodBelow(bad, s.start) && s.invalid == BadBelow(bad, s.start)
       case Done(outcome) =>
         && outcome == Success
         && (Current(s).gate.Open? ==> Current(s).taken == |Current(s).wire|)
         && s.log == GoodBelow(bad, cfg.count) && s.invalid == BadBelow(bad, cfg.count)
  }

  lemma {:induction false} ReadInv(cfg: Config, bad: set<nat>, s: State)
    requires cfg.reconnect && Inv(cfg, bad, s) && s.phase.Sending? && Current(s).gate.Stopped?
    ensures Inv(cfg, bad, PacketRead(cfg, s))
    ensures PacketRead(cfg, s).start == s.start + Current(s).taken + 1
  {
    var id := Current(s).gate.id;
    assert RoundOk(cfg, bad, s);
    GoodStretch(bad, s.start, id);
    assert BadBelow(bad, id + 1) == BadBelow(bad, id) + [id];
    assert GoodBelow(bad, id + 1) == GoodBelow(bad, id);
    hide GoodBelow, BadBelow;
  }

  lemma {:induction false} WriteInv(cfg: Config, bad: set<nat>, s: State)
    requires Inv(cfg, bad, s) && s.phase.Sending? && s.phase.i < cfg.count
    ensures Inv(cfg, bad, Written(s))
  {
    assert Current(Written(s)).wire == Current(s).wire + [s.phase.i];
  }

  lemma {:induction false} JudgeInv(cfg: Config, bad: set<nat>, s: State, c: nat, accept: bool)
    requires Inv(cfg, bad, s) && c < |s.conns| && s.conns[c].gate.Open? && s.conns[c].taken < |s.conns[c].wire|
    requires accept <==> s.conns[c].wire[s.conns[c].taken] !in bad
    ensures c == |s.conns| - 1 && s.phase.Sending?
    ensures Inv(cfg, bad, Judged(s, c, accept))
  {
    assert c == |s.conns| - 1;
  }

  lemma {:induction false} StepInv(cfg: Config, bad: set<nat>, s: State, e: Event)
    requires cfg.reconnect && Inv(cfg, bad, s) && Benign(cfg, bad, s, e)
    ensures Inv(cfg, bad, Step(cfg, s, e))
  {
    hide EndRound, Judged, Written, PacketRead;
    if Enabled(cfg, s, e) {
      match e
      case Judge(c, accept) => JudgeInv(cfg, bad, s, c, accept);
      case Write(_) => WriteInv(cfg, bad, s);
      case Read => ReadInv(cfg, bad, s);
      case Quiet => GoodStretch(bad, s.start, cfg.count);
      case Connect(outcome) =>
    }
  }

  lemma {:induction false} RunInv(cfg: Config, bad: set<nat>, events: seq<Event>)
    requires cfg.count > 0 && cfg.reconnect
    requires Along(cfg, Start(), events, (s, e) => Benign(cfg, bad, s, e))
    ensures Inv(cfg, bad, Run(cfg, Start(), events))
  {
    if events != [] {
      var n := |events| - 1;
      RunInv(cfg, bad, events[..n]);
      StepInv(cfg, bad, Run(cfg, Start(), events[..n]), events[n]);
    }
  }

  /** Main result, what a finished run has done. */
  lemma {:induction false} ExactlyOnce(cfg: Config, bad: set<nat>, events: seq<Event>)
    requires cfg.count > 0 && cfg.reconnect
    requires Along(cfg, Start(), events, (s, e) => Benign(cfg, bad, s, e))
    requires Run(cfg, Start(), events).phase.Done?
    ensures var s := Run(cfg, Start(), events);
            && s.phase == Done(Success)
            && Increasing(s.log) && (forall j: nat :: j in s.log <==> j < cfg.count && j !in bad)
            && Increasing(s.invalid) && (forall j: nat :: j in s.invalid <==> j < cfg.count && j in bad)
  {
    RunInv(cfg, bad, events);
    GoodMeaning(bad, cfg.count);
    BadMeaning(bad, cfg.count);
  }

  /** Conservation: the number the tool prints, tokens less invalid ones, is the number delivered. */
  lemma {:induction false} Conservation(cfg: Config, bad: set<nat>, events: seq<Event>)
    requires cfg.count > 0 && cfg.reconnect
    requires Along(cfg, Start(), events, (s, e) => Benign(cfg, bad, s, e))
    requires Run(cfg, Start(), events).phase.Done?
    ensures var s := Run(cfg, Start(), events); cfg.count - |s.invalid| == |s.log|
  {
    RunInv(cfg, bad, events);
    Partition(bad, cfg.count);
  }

  /** How much a run can still do. */
  function Rank(cfg: Config, s: State): int {
    if s.phase.Done? || s.conns == [] then 0
    else
      var left := cfg.count - s.start;
      Rounds(cfg.count, left) +
      match s.phase
      case Sending(i) =>
        cfg.count - i + left - Current(s).taken + if Current(s).gate.Open? then 1 else 0
      case _ => 2 * left + 2
  }

  function Rounds(count: nat, left: int): nat {
    if left <= 0 then 0 else Rounds(count, left - 1) + 2 * count + 3
  }

  lemma {:induction false} RoundsDrop(count: nat, left: int, left': int)
    requires 0 <= left' < left <= count
    ensures Rounds(count, left') + 2 * left' + 2 < Rounds(count, left)
  {
    if left' < left - 1 { RoundsDrop(count, left - 1, left'); }
  }

  lemma {:induction false} RoundsProduct(count: nat, left: nat)
    ensures Rounds(count, left) == left * (2 * count + 3)
  {
    if left > 0 { RoundsProduct(count, left - 1); }
  }

  lemma {:induction false} ReadRank(cfg: Config, bad: set<nat>, s: State)
    requires cfg.reconnect && Inv(cfg, bad, s) && s.phase.Sending? && Current(s).gate.Stopped?
    ensures 0 <= Rank(cfg, PacketRead(cfg, s)) < Rank(cfg, s)
  {
    var s' := PacketRead(cfg, s);
    ReadInv(cfg, bad, s);
    RoundsDrop(cfg.count, cfg.count - s.start, cfg.count - s'.start);
  }

  /** No schedule runs forever: every event that has an effect uses up rank. */
  lemma {:induction false} StepRank(cfg: Config, bad: set<nat>, s: State, e: Event)
    requires cfg.reconnect && Inv(cfg, bad, s) && Benign(cfg, bad, s, e) && Enabled(cfg, s, e)
    ensures 0 <= Rank(cfg, Step(cfg, s, e)) < Rank(cfg, s)
  {
    hide PacketRead, EndRound, Rounds;
    match e
    case Judge(c, accept) => JudgeInv(cfg, bad, s, c, accept);
    case Write(_) =>
    case Read => ReadRank(cfg, bad, s);
    case Quiet =>
    case Connect(_) =>
  }

  /** No schedule is stuck before the end. */
  lemma {:induction false} SomethingEnabled(cfg: Config, bad: set<nat>, s: State) returns (e: Event)
    requires Inv(cfg, bad, s) && !s.phase.Done?
    ensures Enabled(cfg, s, e) && Benign(cfg, bad, s, e)
  {
    var cur := Current(s);
    if s.phase.Reconnecting? {
      e := Connect(Connected);
    } else if s.phase.i < cfg.count {
      e := Write([]);
    } else if cur.unread {
      e := Read;
    } else if cur.taken < |cur.wire| {
      e := Judge(|s.conns| - 1, cur.wire[cur.taken] !in bad);
    } else {
      e := Quiet;
    }
  }

  ghost predicate AllEnabled(cfg: Config, events: seq<Event>) {
    forall k | 0 <= k < |events| :: Enabled(cfg, Run(cfg, Start(), events[..k]), events[k])
  }

  /** Main result, termination: effective rejection-only runs are bounded by the square of the
      batch, and one that has not finished can go on; so every maximal one finishes. */
  lemma {:induction false} Terminates(cfg: Config, bad: set<nat>, events: seq<Event>)
    requires cfg.count > 0 && cfg.reconnect
    requires Along(cfg, Start(), events, (s, e) => Benign(cfg, bad, s, e))
    requires AllEnabled(cfg, events)
    ensures |events| + Rank(cfg, Run(cfg, Start(), events)) <= cfg.count * (2 * cfg.count + 3) + 2 * cfg.count + 1
    ensures Rank(cfg, Run(cfg, Start(), events)) >= 0
    ensures !Run(cfg, Start(), events).phase.Done? ==>
              exists e :: Enabled(cfg, Run(cfg, Start(), events), e) && Benign(cfg, bad, Run(cfg, Start(), events), e)
  {
    RunInv(cfg, bad, events);
    var s := Run(cfg, Start(), events);
    if !s.phase.Done? {
      var e := SomethingEnabled(cfg, bad, s);
    }
    if events == [] {
      RoundsProduct(cfg.count, cfg.count);
    } else {
      var n := |events| - 1;
      assert forall k | 0 <= k < n :: events[..n][..k] == events[..k];
      Terminates(cfg, bad, events[..n]);
      RunInv(cfg, bad, events[..n]);
      StepRank(cfg, bad, Run(cfg, Start(), events[..n]), events[n]);
    }
  }
}
