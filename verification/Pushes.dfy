/** What the loop around the tool guarantees: which lines of the token file are cut off, and what
    became of their tokens. */
module Pushes {
  import opened Protocol
  import opened Settled
  import opened Text
  import opened TokenFile
  import opened Outer
  import Backlog
  import Client
  import Recorded
  import Report
  import Success
  import Tokens
  import Witnesses

  // ----- what one push cuts off

  /** Of a well-formed file exactly the recorded tokens are reported. */
  lemma ReportedLines(file: string, events: seq<Event>)
    requires WellFormed(file)
    ensures var s, lines, reported := PushState(file, events), Lines(file), Reported(file, events);
            reported != [] ==>
              && s.phase.Done? && InRange(s.invalid, |lines|) && |reported| == |s.invalid|
              && forall k | 0 <= k < |reported| :: reported[k] == lines[s.invalid[k]]
    ensures var s := PushState(file, events);
            s.phase.Done? && InRange(s.invalid, |Lines(file)|) && s.invalid != [] ==> Reported(file, events) != []
  {
    hide Run, Lines, Report.Readable, UpToNul, Tokens.Valid;
    Report.NoneReadable();
    var s, lines, printed := PushState(file, events), Lines(file), Printed(file, events);
    forall k | 0 <= k < |printed| ensures printed[k] == lines[s.invalid[k]] && Report.Printable(printed[k]) {
      CleanToken(lines[s.invalid[k]]);
    }
    Report.ReadableWhole(printed);
  }

  lemma CleanToken(token: string)
    requires Tokens.Valid(token)
    ensures Client.Copied(UpToNul(token)) == token && Report.Printable(token) && Strip(token) == token
  {
    UpToNulPrefix(token, |token|);
    Report.ValidPrintable(token);
  }

  /** Every push that reports something shortens the file: the last reported token is one of its lines. */
  lemma PushCuts(file: string, events: seq<Event>)
    requires WellFormed(file) && Reported(file, events) != []
    ensures var s, lines := PushState(file, events), Lines(file);
            && s.phase.Done? && s.invalid != [] && s.invalid[|s.invalid| - 1] < |lines|
            && FirstMatch(lines, Strip(lines[s.invalid[|s.invalid| - 1]])) <= s.invalid[|s.invalid| - 1]
    ensures var s, lines := PushState(file, events), Lines(file);
            Lines(Pushed(file, events)) == lines[FirstMatch(lines, Strip(lines[s.invalid[|s.invalid| - 1]])) + 1..]
    ensures WellFormed(Pushed(file, events)) && |Lines(Pushed(file, events))| < |Lines(file)|
  {
    hide Run, Lines, CutAfter, FirstMatch, Strip, Tokens.Valid, Reported, PushState;
    var s, lines, reported := PushState(file, events), Lines(file), Reported(file, events);
    ReportedLines(file, events);
    var last := s.invalid[|s.invalid| - 1];
    assert reported[|reported| - 1] == lines[last];
    FirstMatchBefore(lines, last);
    CutAfterLines(file, Strip(lines[last]));
  }

  /** No token occurs twice. */
  ghost predicate Distinct(file: string) {
    forall i, j | 0 <= i < j < |Lines(file)| :: Lines(file)[i] != Lines(file)[j]
  }

  /** With distinct tokens exactly the lines up to the last recorded one are cut off. */
  lemma PushCutsExactly(file: string, events: seq<Event>)
    requires WellFormed(file) && Distinct(file) && Reported(file, events) != []
    ensures var s := PushState(file, events);
            && s.invalid != [] && s.invalid[|s.invalid| - 1] < |Lines(file)|
            && Lines(Pushed(file, events)) == Lines(file)[s.invalid[|s.invalid| - 1] + 1..]
  {
    hide Run, Lines, FirstMatch, Strip, Tokens.Valid, Reported, Pushed;
    PushCuts(file, events);
    var lines := Lines(file);
    forall k | 0 <= k < |lines| ensures Strip(lines[k]) == lines[k] { CleanToken(lines[k]); }
    FirstMatchDistinct(lines, PushState(file, events).invalid[|PushState(file, events).invalid| - 1]);
  }

  /** The number of lines one push cuts off. */
  ghost function CutBy(file: string, events: seq<Event>): int {
    |Lines(file)| - |Lines(Pushed(file, events))|
  }

  lemma PushLeavesTail(file: string, events: seq<Event>)
    requires WellFormed(file)
    ensures WellFormed(Pushed(file, events))
    ensures 0 <= CutBy(file, events) && Lines(Pushed(file, events)) == Lines(file)[CutBy(file, events)..]
  {
    hide Run, Lines, CutAfter, Reported;
    if Reported(file, events) != [] {
      PushCuts(file, events);
    }
  }

  /** All lines one push cuts off are settled in it. */
  ghost predicate CutSettled(file: string, events: seq<Event>) {
    forall j: nat | j < CutBy(file, events) :: IsSettled(PushState(file, events), j)
  }

  /** The lines cut off end at or before the last recorded index. */
  lemma CutWithin(file: string, events: seq<Event>)
    requires WellFormed(file)
    requires var s := PushState(file, events);
             s.invalid != [] && Reported(file, events) != [] ==> SettledBelow(s, s.invalid[|s.invalid| - 1] + 1)
    ensures CutSettled(file, events)
  {
    hide Run, Lines, CutAfter, IsSettled, Reported;
    if Reported(file, events) != [] {
      PushCuts(file, events);
    }
  }

  /** Up to the last record of the push its faults are safe ones. */
  ghost predicate SafeCut(file: string, events: seq<Event>) {
    SafeRun(Cfg(file), events[..Recorded.LastRecording(Cfg(file), events)])
  }

  lemma SafeCutSettled(file: string, events: seq<Event>)
    requires WellFormed(file) && SafeCut(file, events)
    ensures CutSettled(file, events)
  {
    hide Run, Lines, IsSettled, SafeRun, Reported, CutSettled, WellFormed, Pushed, Strip, FirstMatch;
    hide SettledBelow, Recorded.LastRecording;
    if Reported(file, events) != [] {
      PushCuts(file, events);
      assert Cfg(file).count > 0;
      Recorded.RecordedPrefix(Cfg(file), events);
    }
    CutWithin(file, events);
  }

  /** Main result, exact: in a push whose rounds were never reset, of a file without duplicates, the
      lines cut off are settled if and only if no connection before the last one whose refusal was
      read left frames behind. */
  lemma CutExactly(file: string, events: seq<Event>)
    requires WellFormed(file) && Distinct(file) && Reported(file, events) != []
    requires PushState(file, events).resets == 0
    ensures CutSettled(file, events) <==> Backlog.FinishedBeforeSeen(PushState(file, events))
  {
    hide Run, Lines, IsSettled, Reported, Pushed, Backlog.FinishedBeforeSeen;
    PushCutsExactly(file, events);
    Backlog.RecordedPrefixExactly(Cfg(file), events);
  }

  // ----- all pushes

  /** The number of lines a series of pushes has removed. */
  ghost function Removed(file: string, runs: seq<seq<Event>>): int {
    |Lines(file)| - |Lines(After(file, runs))|
  }

  /** Line `j` of the original file was settled, under its own index, in the r-th push. */
  ghost predicate SettledIn(file: string, runs: seq<seq<Event>>, j: nat, r: nat)
    requires r < |runs|
  {
    var off := Removed(file, runs[..r]);
    0 <= off <= j && IsSettled(PushState(After(file, runs[..r]), runs[r]), j - off)
  }

  ghost predicate LineSettled(file: string, runs: seq<seq<Event>>, j: nat) {
    exists r: nat | r < |runs| :: SettledIn(file, runs, j, r)
  }

  ghost predicate CutsSettled(file: string, runs: seq<seq<Event>>) {
    forall r: nat | r < |runs| :: CutSettled(After(file, runs[..r]), runs[r])
  }

  ghost predicate SafeCuts(file: string, runs: seq<seq<Event>>) {
    forall r: nat | r < |runs| :: SafeCut(After(file, runs[..r]), runs[r])
  }

  lemma LineSettledLonger(file: string, runs: seq<seq<Event>>, run: seq<Event>, j: nat)
    requires LineSettled(file, runs, j)
    ensures LineSettled(file, runs + [run], j)
  {
    hide Lines, Run, After;
    var r: nat :| r < |runs| && SettledIn(file, runs, j, r);
    assert (runs + [run])[..r] == runs[..r];
    assert SettledIn(file, runs + [run], j, r);
  }

  lemma AfterSnoc(file: string, runs: seq<seq<Event>>, run: seq<Event>)
    ensures After(file, runs + [run]) == Pushed(After(file, runs), run)
  {
    assert (runs + [run])[..|runs|] == runs;
  }

  /** What is left of the file is its tail, whatever happened. */
  lemma {:induction false} OuterTail(file: string, runs: seq<seq<Event>>)
    requires WellFormed(file)
    ensures WellFormed(After(file, runs))
    ensures 0 <= Removed(file, runs) && Lines(After(file, runs)) == Lines(file)[Removed(file, runs)..]
  {
    hide Lines, Run, Pushed, WellFormed;
    if runs != [] {
      var n := |runs| - 1;
      OuterTail(file, runs[..n]);
      var f := After(file, runs[..n]);
      PushLeavesTail(f, runs[n]);
      assert Lines(file)[Removed(file, runs[..n])..][CutBy(f, runs[n])..] == Lines(file)[Removed(file, runs)..];
    }
  }

  /** Every line cut off is settled if those of each push are. */
  lemma {:induction false} LinesSettled(file: string, runs: seq<seq<Event>>)
    requires WellFormed(file) && CutsSettled(file, runs)
    ensures forall j: nat | j < Removed(file, runs) :: LineSettled(file, runs, j)
  {
    hide Lines, Run, After, CutSettled, LineSettled, IsSettled, PushState;
    if runs == [] {
      NothingRemoved(file);
    } else {
      var n := |runs| - 1;
      var init, run := runs[..n], runs[n];
      assert runs == init + [run];
      assert forall r: nat | r < n :: runs[..r] == init[..r] && runs[r] == init[r];
      LinesSettled(file, init);
      OuterTail(file, init);
      AfterSnoc(file, init, run);
      assert CutSettled(After(file, runs[..n]), runs[n]);
      forall j: nat | j < Removed(file, runs) ensures LineSettled(file, runs, j) {
        if j < Removed(file, init) {
          LineSettledLonger(file, init, run, j);
        } else {
          CutLine(file, init, run, j);
        }
      }
    }
  }

  lemma NothingRemoved(file: string)
    ensures Removed(file, []) == 0
  {
  }

  lemma CutLine(file: string, init: seq<seq<Event>>, run: seq<Event>, j: nat)
    requires CutSettled(After(file, init), run)
    requires 0 <= Removed(file, init) <= j < Removed(file, init + [run])
    ensures LineSettled(file, init + [run], j)
  {
    hide Lines, Run, After, IsSettled;
    var runs := init + [run];
    AfterSnoc(file, init, run);
    assert runs[..|init|] == init && runs[|init|] == run;
    assert SettledIn(file, runs, j, |init|);
  }

  /** Main result: what is left of the file is its tail, and every line cut off was accepted by the
      gateway or refused and recorded in one of the pushes, whatever happened in each of them behind
      its last record and, as far as faults are safe, before it. */
  lemma {:induction false} OuterSafety(file: string, runs: seq<seq<Event>>)
    requires WellFormed(file) && SafeCuts(file, runs)
    ensures WellFormed(After(file, runs))
    ensures 0 <= Removed(file, runs) && Lines(After(file, runs)) == Lines(file)[Removed(file, runs)..]
    ensures forall j: nat | j < Removed(file, runs) :: LineSettled(file, runs, j)
  {
    hide Lines, Run, After, SafeCut, CutSettled, LineSettled, WellFormed, Removed;
    OuterTail(file, runs);
    forall r: nat | r < |runs| ensures CutSettled(After(file, runs[..r]), runs[r]) {
      OuterTail(file, runs[..r]);
      SafeCutSettled(After(file, runs[..r]), runs[r]);
    }
    LinesSettled(file, runs);
  }

  /** Main result: every token of the original file is settled, if at the end the file was used up or
      the tool ended in success after a final wait that was long enough. */
  lemma {:induction false} OuterComplete(file: string, init: seq<seq<Event>>, run: seq<Event>)
    requires WellFormed(file) && SafeCuts(file, init)
    requires var f := After(file, init);
             Lines(f) == [] || (Success.PatientRun(Cfg(f), run) && PushState(f, run).phase == Done(Outcome.Success))
    ensures forall j: nat | j < |Lines(file)| :: LineSettled(file, init + [run], j)
  {
    hide Lines, Run, IsSettled, Success.PatientRun, SafeCut;
    var runs := init + [run];
    var f, off := After(file, init), Removed(file, init);
    assert runs[..|init|] == init && runs[|init|] == run;
    OuterSafety(file, init);
    if Lines(f) != [] {
      Success.SuccessSettlesAll(Cfg(f), run);
    }
    forall j: nat | j < |Lines(file)| ensures LineSettled(file, runs, j) {
      if j < off {
        LineSettledLonger(file, init, run, j);
      } else {
        assert SettledIn(file, runs, j, |init|);
      }
    }
  }

  /** The failing family is real: of every file of two different tokens this push cuts off both lines,
      with the first neither accepted nor reported. */
  lemma CutLoses(file: string)
    requires WellFormed(file) && Distinct(file) && |Lines(file)| == 2
    ensures Reported(file, Witnesses.CUT) == [Lines(file)[1]] && Pushed(file, Witnesses.CUT) == ""
    ensures Removed(file, [Witnesses.CUT]) == 2 && !LineSettled(file, [Witnesses.CUT], 0)
  {
    hide Run, Lines, IsSettled, Reported, Pushed;
    Witnesses.RecordedBehindLoss();
    var runs := [Witnesses.CUT];
    assert Cfg(file) == Config(2, true);
    ReportedLines(file, Witnesses.CUT);
    PushCutsExactly(file, Witnesses.CUT);
    AfterSnoc(file, [], Witnesses.CUT);
    assert [] + runs == runs && runs[..0] == [];
    NoPushes(file);
    NothingRemoved(file);
    NoLinesLeft(Pushed(file, Witnesses.CUT));
  }

  lemma NoLinesLeft(file: string)
    requires Lines(file) == []
    ensures file == ""
  {
  }
}
