/** The outer resume loop of src/pypusher/pusher.py: run the C tool on the token file, parse the
    invalid tokens out of its standard error, cut the file behind the last of them, repeat. */
module Outer {
  import opened Protocol
  import opened Network
  import opened Client
  import opened BinaryMessage
  import opened Text
  import opened TokenFile
  import Report
  import Tokens
  import Bytes

  /** What one run of the tool meets: how its first connection ends, and the schedule behind it. */
  datatype Attempt = Attempt(connect: ConnectOutcome, schedule: seq<Event>)

  /** A file with no more lines than the tool can number. */
  predicate Readable(file: string) {
    |Lines(file)| < Bytes.TWO_32 - 1
  }

  /** A file of device tokens, one a line, as `prepare_token_file` writes it. */
  ghost predicate WellFormed(file: string) {
    Readable(file) && forall k | 0 <= k < |Lines(file)| :: Tokens.Valid(Lines(file)[k])
  }

  function Cfg(file: string): Config {
    Config(|Lines(file)|, true)
  }

  /** The state the batch for `file` reaches with these events. */
  function PushState(file: string, events: seq<Event>): State {
    Run(Cfg(file), Start(), events)
  }

  predicate InRange(ids: seq<nat>, n: nat) {
    forall k | 0 <= k < |ids| :: ids[k] < n
  }

  /** The tokens the tool prints; a tool that is stopped in the middle prints none. */
  function Printed(file: string, events: seq<Event>): seq<string> {
    var s := PushState(file, events);
    if s.phase.Done? && InRange(s.invalid, |Lines(file)|) then TokensAt(Cleaned(Lines(file)), s.invalid) else []
  }

  /** The tokens read back from its output. */
  function Reported(file: string, events: seq<Event>): seq<string> {
    Report.Readable(Printed(file, events))
  }

  /** The file after one push. */
  function Pushed(file: string, events: seq<Event>): string {
    var tokens := Reported(file, events);
    if tokens == [] then file else CutAfter(file, Strip(tokens[|tokens| - 1]))
  }

  /** The file after a series of pushes. */
  function After(file: string, runs: seq<seq<Event>>): string {
    if runs == [] then file
    else Pushed(After(file, runs[..|runs| - 1]), runs[|runs| - 1])
  }

  // ----- text plumbing

  /** The difference is printed as an unsigned number. */
  function SentLine(count: int): string {
    "Notification was sucessfully sent to " + (Decimal(count % Bytes.TWO_32) + " device(s)")
  }

  function NoConnectionLine(why: string): string {
    "Could not connected to " + ("Apple Push Notification Service: " + why)
  }

  function FailedLine(why: string): string {
    "Could not send push: " + why
  }

  function UnparsedLine(why: string): string {
    "Unable to parse file " + why
  }

  lemma UnparsedHarmless(why: string)
    requires Plain(why)
    ensures Harmless([UnparsedLine(why)])
    ensures Unlines([UnparsedLine(why)]) == UnparsedLine(why) + "\n"
  {
    hide Strip, Unlines;
    HarmlessLine("Unable to parse file ", why);
    UnlinesFirst(UnparsedLine(why), []);
    NoLines();
    assert [UnparsedLine(why)] + [] == [UnparsedLine(why)];
  }

  lemma NoLines()
    ensures Unlines([]) == ""
  {
  }

  /** The lines a tool that could read its file prints before the report.  The first is empty; `why`
      stands for the error text.  A tool that is stopped in the middle prints no more. */
  function StatusLines(result: SendResult, count: int, why: string): seq<string> {
    match result
    case Pending => [""]
    case Finished(Success) => ["", SentLine(count)]
    case NotConnected => ["", NoConnectionLine(why)]
    case _ => ["", FailedLine(why)]
  }

  predicate Plain(s: string) {
    OneLine(s) && '\r' !in s
  }

  /** None of these lines is taken for the header of the report. */
  predicate Harmless(lines: seq<string>) {
    forall k | 0 <= k < |lines| :: Plain(lines[k]) && Strip(lines[k]) != Report.HEAD
  }

  lemma StatusLinesHarmless(result: SendResult, count: int, why: string)
    requires Plain(why)
    ensures Harmless(StatusLines(result, count, why))
  {
    hide SentLine, NoConnectionLine, FailedLine;
    StripNothing("");
    match result
    case Pending =>
    case Finished(Success) => SentHarmless(count);
    case NotConnected => NoConnectionHarmless(why);
    case _ => FailedHarmless(why);
  }

  lemma SentHarmless(count: int)
    ensures Plain(SentLine(count)) && Strip(SentLine(count)) != Report.HEAD
  {
    hide Strip;
    SentPlain();
    var number := Decimal(count % Bytes.TWO_32);
    assert Plain(number);
    PlainAppend(number, " device(s)");
    HarmlessLine("Notification was sucessfully sent to ", number + " device(s)");
  }

  lemma ServicePlain()
    ensures Plain("Apple Push Notification Service: ")
  {
  }

  lemma SentPlain()
    ensures Plain("Notification was sucessfully sent to ")
  {
  }

  lemma NoConnectionHarmless(why: string)
    requires Plain(why)
    ensures Plain(NoConnectionLine(why)) && Strip(NoConnectionLine(why)) != Report.HEAD
  {
    hide Strip;
    ServicePlain();
    PlainAppend("Apple Push Notification Service: ", why);
    HarmlessLine("Could not connected to ", "Apple Push Notification Service: " + why);
  }

  lemma FailedHarmless(why: string)
    requires Plain(why)
    ensures Plain(FailedLine(why)) && Strip(FailedLine(why)) != Report.HEAD
  {
    HarmlessLine("Could not send push: ", why);
  }

  lemma PlainAppend(s: string, t: string)
    requires Plain(s) && Plain(t)
    ensures Plain(s + t)
  {
  }

  lemma HarmlessLine(head: string, rest: string)
    requires head != "" && Plain(head) && Plain(rest) && !IsBlank(head[0]) && head[0] != 'I'
    ensures Plain(head + rest) && Strip(head + rest) != Report.HEAD
  {
    StripFirst(head + rest);
  }

  /** The lines are written one after the other. */
  lemma StatusText(lines: seq<string>)
    requires lines != [] && lines[0] == "" && |lines| <= 2
    ensures Unlines(lines) == "\n" + if |lines| == 2 then lines[1] + "\n" else ""
  {
    hide Unlines;
    NoLines();
    UnlinesFirst("", lines[1..]);
    assert [""] + lines[1..] == lines;
    if |lines| == 2 {
      UnlinesFirst(lines[1], []);
      assert [lines[1]] + [] == lines[1..];
      NothingBehind(lines[1] + "\n");
    } else {
      assert lines[1..] == [];
    }
  }

  lemma NothingBehind(s: string)
    ensures s + "" == s && "" + s == s
  {
  }

  /** One run of the tool: what it leaves on standard error, and how much of the schedule it saw. */
  method Tool(content: string, attempt: Attempt, payload: Payload, why: string)
    returns (errput: string, used: nat, ghost before: seq<string>)
    requires Readable(content) && Plain(why)
    ensures used <= |attempt.schedule|
    ensures Harmless(before)
    ensures errput == Unlines(before) + Unlines(Report.ReportLines(Printed(content, attempt.schedule[..used])))
    ensures content == "" ==> used == 0 && before == ["Unable to parse file " + why]
    ensures content != "" && !attempt.connect.Connected? ==>
              used == 0 && before == ["", "Could not connected to Apple Push Notification Service: " + why]
    ensures content != "" && attempt.connect.Connected? && |payload.json| > 2048 ==>
              used == 0 && before == ["", "Could not send push: " + why]
    ensures content != "" && attempt.connect.Connected? && |payload.json| <= 2048 ==>
              var s := PushState(content, attempt.schedule[..used]);
              && (s.phase == Done(Success) ==>
                    && |before| == 2 && before[0] == ""
                    && SaysSent(before[1], (|Lines(content)| - |s.invalid|) % 0x1_0000_0000))
              && (s.phase.Done? && s.phase.outcome.Failure? ==> before == ["", "Could not send push: " + why])
              && (!s.phase.Done? ==> before == [""])
  {
    hide Run, Lines, Cleaned, Strip, Unlines, Report.ReportLines, Harmless, Printed, Records, StatusLines, SaysSent;
    hide Matches, HistoryOk, Labelled;
    used := 0;
    NothingStarted(content);
    assert attempt.schedule[..0] == [];
    NothingPrinted();
    var ok, tokens := ReadTokens(content);
    if !ok {
      UnparsedHarmless(why);
      return UnparsedLine(why) + "\n", 0, [UnparsedLine(why)];
    }
    errput := "\n";
    var result, invalidTokens := SendResult.NotConnected, [];
    var ctx := new Context(true);
    var connected := ctx.Connect(attempt.connect, 0);
    if connected {
      TokensFound(content);
      var json := if |payload.json| <= PAYLOAD_MAX_SIZE then payload.json else [];
      var net := new Net(Batch(tokens, json, payload.expiry, payload.priority), true, attempt.schedule);
      result, invalidTokens := Send(ctx, net, payload, tokens);
      used := net.clock;
      assert net.cfg == Cfg(content);
      SendPrints(content, attempt.schedule[..used], result, invalidTokens);
      if result.Pending? {
        invalidTokens := [];
      }
    }
    var lines := StatusLines(result, |tokens| - |invalidTokens|, why);
    StatusLinesHarmless(result, |tokens| - |invalidTokens|, why);
    StatusMeaning(result, |tokens| - |invalidTokens|, why);
    StatusText(lines);
    before := lines;
    if |lines| == 2 {
      errput := errput + (lines[1] + "\n");
    }
    var report := Report.Print(invalidTokens);
    errput := errput + report;
  }

  /** The line names a number of devices in decimal digits. */
  ghost predicate SaysSent(line: string, count: int) {
    exists digits: string | AllDigits(digits) && Value(digits) == count ::
      line == "Notification was sucessfully sent to " + digits + " device(s)"
  }

  lemma SentSays(count: int)
    ensures SaysSent(SentLine(count), count % 0x1_0000_0000)
  {
    var digits := Decimal(count % Bytes.TWO_32);
    DecimalValue(count % Bytes.TWO_32);
    hide Decimal, Value;
    assert AllDigits(digits) && Value(digits) == count % 0x1_0000_0000;
    assert SentLine(count) == "Notification was sucessfully sent to " + digits + " device(s)";
  }

  lemma StatusMeaning(result: SendResult, count: int, why: string)
    ensures var lines := StatusLines(result, count, why);
            && lines != [] && lines[0] == "" && |lines| <= 2
            && (result.Pending? ==> lines == [""])
            && (result == Finished(Success) ==> |lines| == 2 && SaysSent(lines[1], count % 0x1_0000_0000))
            && (result.NotConnected? ==>
                  lines == ["", "Could not connected to Apple Push Notification Service: " + why])
            && (result.TooLarge? || (result.Finished? && result.outcome.Failure?) ==>
                  lines == ["", "Could not send push: " + why])
  {
    hide SaysSent, SentLine, NoConnectionLine;
    SentSays(count);
    NoConnectionSays(why);
  }

  lemma NoConnectionSays(why: string)
    ensures NoConnectionLine(why) == "Could not connected to Apple Push Notification Service: " + why
  {
    ServiceName();
    Joined("Could not connected to ", "Apple Push Notification Service: ", why);
  }

  lemma ServiceName()
    ensures "Could not connected to " + "Apple Push Notification Service: " ==
            "Could not connected to Apple Push Notification Service: "
  {
  }

  lemma Joined(a: string, b: string, c: string)
    ensures a + (b + c) == a + b + c
  {
  }

  /** What the report of a call of `apn_send` is to hold. */
  lemma SendPrints(file: string, events: seq<Event>, result: SendResult, invalidTokens: seq<string>)
    requires Records(Cleaned(Lines(file)), PushState(file, events).invalid, invalidTokens)
    requires result.Pending? ==> !PushState(file, events).phase.Done?
    requires result.Finished? ==> PushState(file, events).phase.Done?
    requires result.NotConnected? || result.TooLarge? ==> invalidTokens == []
    ensures Printed(file, events) == if result.Pending? then [] else invalidTokens
    ensures |invalidTokens| == |PushState(file, events).invalid|
  {
    hide Run, Lines;
  }

  lemma NothingPrinted()
    ensures Unlines(Report.ReportLines([])) == ""
  {
  }

  lemma NothingStarted(file: string)
    ensures Printed(file, []) == []
  {
  }

  lemma TokensFound(file: string)
    requires file != ""
    ensures |Lines(file)| > 0
  {
  }

  /** `apn_push` */
  method ApnPush(file: File, attempt: Attempt, payload: Payload, why: string)
    returns (invalidTokens: seq<string>, used: nat)
    requires Readable(file.content) && Plain(why)
    modifies file
    ensures used <= |attempt.schedule|
    ensures invalidTokens == Reported(old(file.content), attempt.schedule[..used])
    ensures file.content == Pushed(old(file.content), attempt.schedule[..used])
  {
    hide Lines, Run, Unlines, SplitLines, Strip, CutAfter, Harmless, Printed, Reported, Readable;
    hide Report.AllRecovered, Report.BehindHead, Report.ReportLines;
    var errput;
    ghost var before;
    errput, used, before := Tool(file.content, attempt, payload, why);
    ReportFound(before, file.content, attempt.schedule[..used]);
    invalidTokens := Report.Parse(SplitLines(errput));
    if invalidTokens != [] {
      file.RemoveLines(0, invalidTokens[|invalidTokens| - 1]);
    }
  }

  /** What the parser finds in the output of the tool. */
  lemma ReportFound(before: seq<string>, file: string, events: seq<Event>)
    requires Harmless(before)
    ensures var errput := Unlines(before) + Unlines(Report.ReportLines(Printed(file, events)));
            Report.AllRecovered(Report.BehindHead(SplitLines(errput))) == Reported(file, events)
  {
    hide Lines, Run, Unlines, SplitLines, Strip, Report.AllRecovered, Report.BehindHead, Report.ReportLines;
    PrintedLines(file, events);
    Report.ReportRoundTrip(before, Printed(file, events));
  }

  lemma PrintedLines(file: string, events: seq<Event>)
    ensures forall k | 0 <= k < |Printed(file, events)| :: OneLine(Printed(file, events)[k])
  {
    hide Run, Lines, UpToNul;
    var lines, ids := Lines(file), PushState(file, events).invalid;
    LinesAreLines(file);
    forall k | 0 <= k < |Printed(file, events)| ensures OneLine(Printed(file, events)[k]) {
      UpToNulWithin(lines[ids[k]]);
      assert Printed(file, events)[k] == Copied(UpToNul(lines[ids[k]]));
    }
  }

  lemma {:induction false} UpToNulWithin(s: string)
    ensures OneLine(s) ==> OneLine(UpToNul(s))
  {
    if s != "" && s[0] != '\0' {
      UpToNulWithin(s[1..]);
      assert OneLine(s) ==> OneLine(s[1..]);
    }
  }

  /** Every push that reports something shortens the file, whatever its lines are. */
  lemma PushShortens(file: string, events: seq<Event>)
    requires Readable(file)
    ensures Readable(Pushed(file, events))
    ensures Reported(file, events) != [] ==> |Lines(Pushed(file, events))| < |Lines(file)|
  {
    hide Run, Lines, CutAfter, FirstMatch, Strip;
    var reported := Reported(file, events);
    if reported != [] {
      Report.NoneReadable();
      CutAfterLines(file, Strip(reported[|reported| - 1]));
    }
  }

  /** `apn_main`: push until nothing is reported; the k-th run of the tool meets `attempts(k)`. */
  method ApnMain(file: File, attempts: nat -> Attempt, payload: Payload, why: string) returns (runs: seq<seq<Event>>)
    requires Readable(file.content) && Plain(why)
    modifies file
    ensures 1 <= |runs| <= |Lines(old(file.content))| + 1
    ensures forall k | 0 <= k < |runs| :: runs[k] <= attempts(k).schedule
    ensures file.content == After(old(file.content), runs) && Loop(old(file.content), runs)
  {
    hide Run, Lines, Pushed, Readable, Reported, After, AllReport;
    runs := [];
    ghost var original := file.content;
    NoPushes(original);
    while true
      invariant Readable(file.content) && file.content == After(original, runs)
      invariant |runs| + |Lines(file.content)| <= |Lines(original)|
      invariant forall k | 0 <= k < |runs| :: runs[k] <= attempts(k).schedule
      invariant AllReport(original, runs)
      decreases |Lines(file.content)|
    {
      var invalidTokens, used := ApnPush(file, attempts(|runs|), payload, why);
      var run := attempts(|runs|).schedule[..used];
      OnePush(original, runs, run);
      PushShortens(After(original, runs), run);
      runs := runs + [run];
      if invalidTokens == [] {
        break;
      }
    }
  }

  ghost predicate AllReport(file: string, runs: seq<seq<Event>>) {
    forall k | 0 <= k < |runs| :: Reported(After(file, runs[..k]), runs[k]) != []
  }

  lemma NoPushes(file: string)
    ensures AllReport(file, []) && After(file, []) == file
  {
  }

  lemma OnePush(file: string, runs: seq<seq<Event>>, run: seq<Event>)
    requires AllReport(file, runs)
    ensures After(file, runs + [run]) == Pushed(After(file, runs), run)
    ensures if Reported(After(file, runs), run) == [] then Loop(file, runs + [run]) else AllReport(file, runs + [run])
  {
    hide Reported, Pushed;
    var all := runs + [run];
    assert all[..|runs|] == runs;
    hide After;
    forall k | 0 <= k < |all|
      ensures Reported(After(file, all[..k]), all[k]) == [] <==> k == |runs| && Reported(After(file, runs), run) == []
    {
      assert k < |runs| ==> all[..k] == runs[..k];
    }
  }

  /** The pushes of one call of `apn_main`: all but the last report something. */
  ghost predicate Loop(file: string, runs: seq<seq<Event>>) {
    runs != [] && forall k | 0 <= k < |runs| :: Reported(After(file, runs[..k]), runs[k]) == [] <==> k == |runs| - 1
  }
}
