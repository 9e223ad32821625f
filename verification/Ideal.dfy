/** The loop around the tool when nothing goes wrong but refusals.  A single push already resumes
    behind every bad token; pushing again what lies behind the last one delivers it twice. */
module Ideal {
  import opened Protocol
  import opened Text
  import opened Outer
  import opened Pushes
  import Duplication
  import ExactlyOnce

  function BadIn(file: string, bad: set<string>): set<nat> {
    set j: nat | j < |Lines(file)| && Lines(file)[j] in bad
  }

  /** A push that is finished, in which the gateway refused exactly the bad tokens it came to, and
      nothing else went wrong. */
  ghost predicate IdealPush(file: string, bad: set<string>, events: seq<Event>) {
    Lines(file) != [] ==>
      && Along(Cfg(file), Start(), events, (s, e) => ExactlyOnce.Benign(Cfg(file), BadIn(file, bad), s, e))
      && PushState(file, events).phase.Done?
  }

  /** The number of lines up to the last bad one. */
  function LastBad(lines: seq<string>, bad: set<string>): (m: nat)
    ensures m <= |lines| && (m > 0 ==> lines[m - 1] in bad)
    ensures forall j | m <= j < |lines| :: lines[j] !in bad
  {
    if lines == [] then 0
    else if lines[|lines| - 1] in bad then |lines|
    else LastBad(lines[..|lines| - 1], bad)
  }

  lemma {:induction false} IncreasingTimes(s: seq<nat>, j: nat)
    requires ExactlyOnce.Increasing(s)
    ensures Duplication.Times(s, j) == if j in s then 1 else 0
  {
    if s != [] {
      var n := |s| - 1;
      IncreasingTimes(s[..n], j);
      assert s == s[..n] + [s[n]];
      Duplication.TimesSnoc(s[..n], s[n], j);
      assert s[n] !in s[..n];
    }
  }

  /** The last of the indices recorded is the last bad one. */
  lemma LastRecorded(lines: seq<string>, bad: set<string>, ids: seq<nat>)
    requires ExactlyOnce.Increasing(ids) && forall j: nat :: j in ids <==> j < |lines| && lines[j] in bad
    ensures if LastBad(lines, bad) == 0 then ids == [] else ids != [] && ids[|ids| - 1] + 1 == LastBad(lines, bad)
  {
    var m := LastBad(lines, bad);
    assert forall k | 0 <= k < |ids| :: ids[k] in ids;
    assert forall k | 0 <= k < |ids| :: lines[ids[k]] in bad && ids[k] < m;
    assert ids != [] ==> 0 <= ids[0] < m;
    if m > 0 {
      assert m - 1 in ids;
      var k :| 0 <= k < |ids| && ids[k] == m - 1;
    }
  }

  /** One ideal push delivers each good token once and cuts the file behind the last bad one. */
  lemma IdealOutcome(file: string, bad: set<string>, events: seq<Event>)
    requires WellFormed(file) && Distinct(file) && IdealPush(file, bad, events)
    ensures var lines, m := Lines(file), LastBad(Lines(file), bad);
            && (Reported(file, events) == [] <==> m == 0)
            && Lines(Pushed(file, events)) == lines[m..]
            && forall j: nat | j < |lines| ::
                 Duplication.Times(PushState(file, events).log, j) == if lines[j] in bad then 0 else 1
  {
    hide Run, Lines, LastBad, Reported, Duplication.Times, IdealPush, PushState;
    ReportedLines(file, events);
    if Lines(file) != [] { IdealRecords(file, bad, events); }
    if Reported(file, events) == [] {
      assert Lines(file)[0..] == Lines(file);
    } else {
      hide Pushed;
      PushCutsExactly(file, events);
    }
  }

  lemma IdealRecords(file: string, bad: set<string>, events: seq<Event>)
    requires WellFormed(file) && Lines(file) != [] && IdealPush(file, bad, events)
    ensures var s, m := PushState(file, events), LastBad(Lines(file), bad);
            && s.phase.Done? && InRange(s.invalid, |Lines(file)|)
            && (if m == 0 then s.invalid == [] else s.invalid != [] && s.invalid[|s.invalid| - 1] + 1 == m)
    ensures forall j: nat | j < |Lines(file)| ::
              Duplication.Times(PushState(file, events).log, j) == if Lines(file)[j] in bad then 0 else 1
  {
    hide Run, Lines, LastBad, Duplication.Times, ExactlyOnce.Benign;
    var lines, s := Lines(file), PushState(file, events);
    assert Cfg(file).count > 0;
    ExactlyOnce.ExactlyOnce(Cfg(file), BadIn(file, bad), events);
    LastRecorded(lines, bad, s.invalid);
    assert forall k | 0 <= k < |s.invalid| :: s.invalid[k] in s.invalid;
    forall j: nat | j < |lines| ensures Duplication.Times(s.log, j) == if lines[j] in bad then 0 else 1 {
      IncreasingTimes(s.log, j);
    }
  }

  /** The number the tool prints after such a push is the number of notifications accepted. */
  lemma PrintedCount(file: string, bad: set<string>, events: seq<Event>)
    requires Readable(file) && Lines(file) != [] && IdealPush(file, bad, events)
    ensures var s := PushState(file, events);
            s.phase == Done(Success) && (|Lines(file)| - |s.invalid|) % 0x1_0000_0000 == |s.log|
  {
    hide Run, Lines, ExactlyOnce.Benign;
    assert Cfg(file).count > 0;
    ExactlyOnce.ExactlyOnce(Cfg(file), BadIn(file, bad), events);
    ExactlyOnce.Conservation(Cfg(file), BadIn(file, bad), events);
  }

  /** How often the notification for line `j` of the original file was accepted. */
  ghost function DeliveredIn(file: string, events: seq<Event>, j: int): nat {
    if j < 0 then 0 else Duplication.Times(PushState(file, events).log, j)
  }

  ghost function Deliveries(file: string, runs: seq<seq<Event>>, j: nat): nat {
    if runs == [] then 0
    else
      var init := runs[..|runs| - 1];
      Deliveries(file, init, j) + DeliveredIn(After(file, init), runs[|runs| - 1], j - Removed(file, init))
  }

  lemma DeliveriesSnoc(file: string, runs: seq<seq<Event>>, run: seq<Event>, j: nat)
    ensures Deliveries(file, runs + [run], j) ==
            Deliveries(file, runs, j) + DeliveredIn(After(file, runs), run, j - Removed(file, runs))
  {
    hide Lines, Run, After, DeliveredIn, Removed;
    assert (runs + [run])[..|runs|] == runs;
  }

  lemma TailGood(file: string, rest: string, bad: set<string>)
    requires WellFormed(file) && Distinct(file) && Lines(rest) == Lines(file)[LastBad(Lines(file), bad)..]
    ensures WellFormed(rest) && Distinct(rest) && LastBad(Lines(rest), bad) == 0
  {
    hide Lines;
  }

  lemma FirstPush(file: string, run: seq<Event>, j: nat)
    ensures After(file, [run]) == Pushed(file, run)
    ensures Deliveries(file, [run], j) == DeliveredIn(file, run, j)
  {
    hide Lines, Run, Pushed, DeliveredIn, Deliveries, After, Removed;
    NoPushes(file);
    NothingRemoved(file);
    AfterSnoc(file, [], run);
    DeliveriesSnoc(file, [], run, j);
    NoDeliveries(file, j);
    assert [] + [run] == [run];
  }

  lemma NoDeliveries(file: string, j: nat)
    ensures Deliveries(file, [], j) == 0
  {
  }

  /** Main result: with distinct tokens and nothing wrong but refusals, the loop is over after one push
      if no token is bad and after two otherwise.  Bad tokens are never delivered and good ones up to
      the last bad one once; every good one behind it is delivered twice. */
  lemma {:induction false} IdealLoop(file: string, bad: set<string>, runs: seq<seq<Event>>)
    requires WellFormed(file) && Distinct(file) && Loop(file, runs)
    requires forall r: nat | r < |runs| :: IdealPush(After(file, runs[..r]), bad, runs[r])
    ensures var lines, m := Lines(file), LastBad(Lines(file), bad);
            && |runs| == (if m == 0 then 1 else 2)
            && Lines(After(file, runs)) == lines[m..]
            && forall j: nat | j < |lines| ::
                 Deliveries(file, runs, j) == if lines[j] in bad then 0 else if m == 0 || j < m then 1 else 2
  {
    hide Run, Lines, LastBad, Reported, Pushed, WellFormed, Distinct, IdealPush, Deliveries, Duplication.Times;
    var lines, m := Lines(file), LastBad(Lines(file), bad);
    assert runs[..0] == [] && After(file, []) == file;
    var f := Pushed(file, runs[0]);
    IdealOutcome(file, bad, runs[0]);
    FirstPush(file, runs[0], 0);
    assert (Reported(After(file, runs[..0]), runs[0]) == []) <==> 0 == |runs| - 1;
    if m == 0 {
      assert runs == [runs[0]] && lines[0..] == lines;
    } else {
      assert runs[..1] == [runs[0]];
      TailGood(file, f, bad);
      IdealOutcome(f, bad, runs[1]);
      assert (Reported(After(file, runs[..1]), runs[1]) == []) <==> 1 == |runs| - 1;
      assert runs == [runs[0]] + [runs[1]];
      AfterSnoc(file, [runs[0]], runs[1]);
      assert Lines(f)[0..] == Lines(f);
    }
    hide After;
    forall j: nat | j < |lines|
      ensures Deliveries(file, runs, j) == if lines[j] in bad then 0 else if m == 0 || j < m then 1 else 2
    {
      FirstPush(file, runs[0], j);
      if m > 0 {
        DeliveriesSnoc(file, [runs[0]], runs[1], j);
        assert j >= m ==> Lines(f)[j - m] == lines[j];
      }
    }
  }
}
