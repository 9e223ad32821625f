/** The report of invalid tokens: printed by src/pusher/pusher.c, parsed back by
    src/pypusher/utils/file.py. */
module Report {
  import opened Text
  import Tokens

  const HEAD := "Invalid tokens:"

  /** `"    %u. %s"` */
  function Row(i: nat, token: string): string {
    "    " + Decimal(i) + ". " + token
  }

  function Rows(tokens: seq<string>): seq<string> {
    seq(|tokens|, i requires 0 <= i < |tokens| => Row(i, tokens[i]))
  }

  /** The lines of the report, none if no array of invalid tokens came back. */
  function ReportLines(tokens: seq<string>): seq<string> {
    if tokens == [] then [] else ["", HEAD] + Rows(tokens) + [""]
  }

  /** The report in characters: an empty line, the header, one numbered row a token, an empty line. */
  lemma ReportText(tokens: seq<string>) returns (numbers: seq<string>)
    requires tokens != []
    ensures |ReportLines(tokens)| == |tokens| + 3 && |numbers| == |tokens|
    ensures ReportLines(tokens)[0] == "" && ReportLines(tokens)[1] == "Invalid tokens:"
    ensures ReportLines(tokens)[|tokens| + 2] == ""
    ensures forall k | 0 <= k < |tokens| ::
              && AllDigits(numbers[k]) && Value(numbers[k]) == k
              && ReportLines(tokens)[k + 2] == "    " + numbers[k] + ". " + tokens[k]
  {
    numbers := seq(|tokens|, k requires 0 <= k < |tokens| => Decimal(k));
    hide Decimal, Value;
    forall k | 0 <= k < |tokens| ensures Value(numbers[k]) == k { DecimalValue(k); }
  }

  lemma RowsSnoc(tokens: seq<string>, k: nat)
    requires k < |tokens|
    ensures Rows(tokens[..k + 1]) == Rows(tokens[..k]) + [Row(k, tokens[k])]
  {
  }

  lemma UnlinesSnoc(lines: seq<string>, line: string)
    ensures Unlines(lines + [line]) == Unlines(lines) + line + "\n"
  {
    UnlinesAppend(lines, [line]);
    assert Unlines([line]) == line + "\n" + "";
    assert Unlines(lines) + (line + "\n") == Unlines(lines) + line + "\n";
  }

  /** The report loop of `main` */
  method Print(tokens: seq<string>) returns (text: string)
    ensures text == Unlines(ReportLines(tokens))
  {
    text := "";
    if tokens == [] {
      return;
    }
    text := text + "\n";
    text := text + HEAD + "\n";
    UnlinesSnoc([], "");
    UnlinesSnoc([""], HEAD);
    assert [""] + [HEAD] == ["", HEAD] + Rows(tokens[..0]) && [] + [""] == [""];
    var i := 0;
    while i < |tokens|
      invariant i <= |tokens|
      invariant text == Unlines(["", HEAD] + Rows(tokens[..i]))
    {
      RowsSnoc(tokens, i);
      UnlinesSnoc(["", HEAD] + Rows(tokens[..i]), Row(i, tokens[i]));
      assert ["", HEAD] + Rows(tokens[..i]) + [Row(i, tokens[i])] == ["", HEAD] + Rows(tokens[..i + 1]);
      text := text + Row(i, tokens[i]) + "\n";
      i := i + 1;
    }
    assert tokens[..i] == tokens;
    UnlinesSnoc(["", HEAD] + Rows(tokens), "");
    text := text + "\n";
  }

  // ----- the parser

  /** The token a line behind the header contributes, if any. */
  function Recovered(line: string): seq<string> {
    var cols := Words(line);
    if |cols| == 2 && |cols[1]| == Tokens.HEX_LENGTH then [cols[1]] else []
  }

  function AllRecovered(lines: seq<string>): seq<string> {
    if lines == [] then [] else Recovered(lines[0]) + AllRecovered(lines[1..])
  }

  /** The lines behind the header. */
  function BehindHead(lines: seq<string>): seq<string> {
    if lines == [] then []
    else if Strip(lines[0]) == HEAD then lines[1..]
    else BehindHead(lines[1..])
  }

  /** `parse_err_log` */
  method Parse(lines: seq<string>) returns (tokens: seq<string>)
    ensures tokens == AllRecovered(BehindHead(lines))
  {
    hide Words, Strip;
    tokens := [];
    var isMatch := false;
    var k := 0;
    while k < |lines|
      invariant k <= |lines|
      invariant !isMatch ==> tokens == [] && BehindHead(lines[k..]) == BehindHead(lines)
      invariant isMatch ==> tokens + AllRecovered(lines[k..]) == AllRecovered(BehindHead(lines))
    {
      var line := lines[k];
      assert lines[k..][1..] == lines[k + 1..];
      if isMatch {
        var cols := Words(line);
        ghost var before := tokens;
        if |cols| == 2 && |cols[1]| == Tokens.HEX_LENGTH {
          tokens := tokens + [cols[1]];
        }
        assert tokens == before + Recovered(line);
        assert before + (Recovered(line) + AllRecovered(lines[k + 1..])) ==
               before + Recovered(line) + AllRecovered(lines[k + 1..]);
      } else if Strip(line) == HEAD {
        isMatch := true;
      }
      k := k + 1;
    }
    assert lines[k..] == [];
  }

  // ----- round trip

  /** What the report can carry: 64 characters without blanks. */
  predicate Printable(token: string) {
    |token| == Tokens.HEX_LENGTH && NoBlanks(token)
  }

  lemma ValidPrintable(token: string)
    requires Tokens.Valid(token)
    ensures Printable(token) && OneLine(token) && Strip(token) == token
  {
    StripNothing(token);
  }

  lemma RowRecovered(i: nat, token: string)
    requires Printable(token)
    ensures Recovered(Row(i, token)) == [token]
    ensures '\r' !in Row(i, token)
  {
    hide Words, Decimal, WordEnd;
    var number := Decimal(i) + ".";
    var rest := " " + token;
    var words := number + rest;
    assert Words(rest) == [token] by {
      WordsBlank(token);
      assert token + "" == token;
      WordsWord(token, "");
      WordsNothing();
    }
    assert Words(words) == [number, token] by { WordsWord(number, rest); }
    WordsIndented(words);
    assert Row(i, token) == "    " + words;
  }

  lemma WordsNothing()
    ensures Words("") == []
  {
  }

  lemma WordsIndented(s: string)
    ensures Words("    " + s) == Words(s)
  {
    hide Words;
    WordsBlank(s);
    WordsBlank(" " + s);
    WordsBlank("  " + s);
    WordsBlank("   " + s);
    assert " " + (" " + s) == "  " + s && " " + ("  " + s) == "   " + s && " " + ("   " + s) == "    " + s;
  }

  /** What the parser makes of the report of these tokens. */
  function Readable(tokens: seq<string>): seq<string> {
    AllRecovered(SplitAll(Rows(tokens)))
  }

  lemma {:induction false} AllRecoveredAppend(lines: seq<string>, more: seq<string>)
    ensures AllRecovered(lines + more) == AllRecovered(lines) + AllRecovered(more)
  {
    hide Recovered;
    if lines == [] {
      assert lines + more == more;
    } else {
      AllRecoveredAppend(lines[1..], more);
      assert (lines + more)[0] == lines[0] && (lines + more)[1..] == lines[1..] + more;
      var first, rest, last := Recovered(lines[0]), AllRecovered(lines[1..]), AllRecovered(more);
      Regroup(first, rest, last);
    }
  }

  /** Tokens of the right form are all recovered, */
  lemma {:induction false} ReadableWhole(tokens: seq<string>)
    requires forall k | 0 <= k < |tokens| :: Printable(tokens[k])
    ensures Readable(tokens) == tokens
  {
    hide Printable, Row, SplitReturns, AllRecovered, Readable, Recovered;
    NoneReadable();
    if tokens != [] {
      var n := |tokens| - 1;
      ReadableWhole(tokens[..n]);
      ReadableSnoc(tokens[..n], tokens[n]);
      RowRecovered(n, tokens[n]);
      RecoveredAlone(Row(n, tokens[n]));
      assert tokens[..n] + [tokens[n]] == tokens;
    }
  }

  lemma NoneReadable()
    ensures Readable([]) == []
  {
    assert Rows([]) == [];
  }

  lemma ReadableSnoc(tokens: seq<string>, token: string)
    ensures Readable(tokens + [token]) == Readable(tokens) + AllRecovered(SplitReturns(Row(|tokens|, token)))
  {
    hide Recovered, Row, SplitReturns;
    var row := Row(|tokens|, token);
    assert Rows(tokens + [token]) == Rows(tokens) + [row];
    SplitAllAppend(Rows(tokens), [row]);
    SplitOne(row);
    hide SplitAll, Rows, AllRecovered;
    AllRecoveredAppend(SplitAll(Rows(tokens)), SplitReturns(row));
  }

  lemma SplitOne(line: string)
    ensures SplitAll([line]) == SplitReturns(line)
  {
    hide SplitReturns;
    assert [line][1..] == [] && SplitReturns(line) + [] == SplitReturns(line);
  }

  lemma RecoveredAlone(line: string)
    requires '\r' !in line
    ensures AllRecovered(SplitReturns(line)) == Recovered(line)
  {
    hide Recovered, SplitReturns;
    NoReturns(line);
    assert [line][1..] == [] && Recovered(line) + [] == Recovered(line);
  }

  lemma {:induction false} HeadSkipped(before: seq<string>, lines: seq<string>)
    requires forall k | 0 <= k < |before| :: Strip(before[k]) != HEAD
    ensures BehindHead(before + lines) == BehindHead(lines)
  {
    if before == [] {
      assert before + lines == lines;
    } else {
      HeadSkipped(before[1..], lines);
      assert (before + lines)[1..] == before[1..] + lines;
    }
  }

  /** Parsing the output of the tool recovers what its report holds, whatever lines without the header
      precede it: exactly the printed tokens if they have 64 characters without blanks. */
  lemma ReportRoundTrip(before: seq<string>, tokens: seq<string>)
    requires forall k | 0 <= k < |before| :: OneLine(before[k]) && '\r' !in before[k] && Strip(before[k]) != HEAD
    requires forall k | 0 <= k < |tokens| :: OneLine(tokens[k])
    ensures AllRecovered(BehindHead(SplitLines(Unlines(before) + Unlines(ReportLines(tokens))))) == Readable(tokens)
    ensures (forall k | 0 <= k < |tokens| :: Printable(tokens[k])) ==> Readable(tokens) == tokens
  {
    hide Lines, Unlines, Words, AllRecovered, BehindHead, Strip, Row, Readable, Printable, SplitAll;
    var report := ReportLines(tokens);
    ReportOneLine(tokens);
    UnlinesAppend(before, report);
    LinesOfUnlines(before + report, "");
    assert Unlines(before + report) + "" == Unlines(before + report);
    LinesNone();
    assert Lines(Unlines(before) + Unlines(report)) == before + report;
    SplitAllAppend(before, report);
    SplitPlain(before);
    HeadSkipped(before, SplitAll(report));
    ReportRecovered(tokens);
    if forall k | 0 <= k < |tokens| :: Printable(tokens[k]) { ReadableWhole(tokens); }
  }

  lemma ReportOneLine(tokens: seq<string>)
    requires forall k | 0 <= k < |tokens| :: OneLine(tokens[k])
    ensures forall k | 0 <= k < |ReportLines(tokens)| :: OneLine(ReportLines(tokens)[k])
  {
    hide Recovered;
    forall i | 0 <= i < |tokens| ensures OneLine(Rows(tokens)[i]) { assert OneLine(Decimal(i)); }
    assert OneLine("") && OneLine(HEAD);
  }

  lemma HeadPlain()
    ensures SplitAll(["", HEAD]) == ["", HEAD] && SplitAll([""]) == [""]
  {
    SplitPlain(["", HEAD]);
    SplitPlain([""]);
  }

  lemma ReportSplit(head: seq<string>, rows: seq<string>, last: seq<string>)
    ensures SplitAll(head + rows + last) == SplitAll(head) + (SplitAll(rows) + SplitAll(last))
  {
    hide SplitAll;
    SplitAllAppend(head + rows, last);
    SplitAllAppend(head, rows);
  }

  lemma ReportRecovered(tokens: seq<string>)
    ensures AllRecovered(BehindHead(SplitAll(ReportLines(tokens)))) == Readable(tokens)
  {
    hide SplitAll, Rows, AllRecovered, BehindHead;
    if tokens == [] {
      NoneReadable();
      NothingSplit();
    } else {
      HeadPlain();
      ReportSplit(["", HEAD], Rows(tokens), [""]);
      HeadFirst(SplitAll(Rows(tokens)) + [""]);
      BlankLast(SplitAll(Rows(tokens)));
    }
  }

  lemma NothingSplit()
    ensures AllRecovered(BehindHead(SplitAll([]))) == []
  {
  }

  lemma HeadFirst(lines: seq<string>)
    ensures BehindHead(["", HEAD] + lines) == lines
  {
    var all := ["", HEAD] + lines;
    assert Strip("") != HEAD && Strip(HEAD) == HEAD;
    assert all[1..][1..] == lines;
  }

  lemma BlankLast(lines: seq<string>)
    ensures AllRecovered(lines + [""]) == AllRecovered(lines)
  {
    WordsNothing();
    AllRecoveredAppend(lines, [""]);
    assert AllRecovered([""]) == Recovered("") + AllRecovered([""][1..]);
  }
}
