/** Lines, blanks and decimal numbers, as `fprintf`, `readline`, `splitlines`, `strip` and
    `split` treat them. */
module Text {
  // ----- lines

  /** Position of the first newline, or the length. */
  function LineEnd(s: string): (n: nat)
    ensures n <= |s| && (n < |s| ==> s[n] == '\n')
    ensures forall i | 0 <= i < n :: s[i] != '\n'
  {
    if s == "" || s[0] == '\n' then 0 else 1 + LineEnd(s[1..])
  }

  function FirstLine(s: string): string {
    s[..LineEnd(s)]
  }

  /** What is left after one line, with its newline, was read. */
  function AfterLine(s: string): (rest: string)
    ensures s != "" ==> |rest| < |s|
  {
    if LineEnd(s) < |s| then s[LineEnd(s) + 1..] else ""
  }

  function Lines(s: string): seq<string>
    decreases |s|
  {
    if s == "" then [] else [FirstLine(s)] + Lines(AfterLine(s))
  }

  /** Position of the first carriage return, or the length. */
  function ReturnAt(s: string): (n: nat)
    ensures n <= |s| && ('\r' in s <==> n < |s|)
    ensures n < |s| ==> s[n] == '\r'
  {
    if s == "" || s[0] == '\r' then 0 else 1 + ReturnAt(s[1..])
  }

  /** One line split at its carriage returns; one at the end belongs to the newline. */
  function SplitReturns(line: string): seq<string>
    decreases |line|
  {
    var n := ReturnAt(line);
    [line[..n]] + if n + 1 < |line| then SplitReturns(line[n + 1..]) else []
  }

  function SplitAll(lines: seq<string>): seq<string> {
    if lines == [] then [] else SplitReturns(lines[0]) + SplitAll(lines[1..])
  }

  /** `splitlines` of Python 2, which splits at newlines and carriage returns. */
  function SplitLines(s: string): seq<string> {
    SplitAll(Lines(s))
  }

  lemma Regroup(a: seq<string>, b: seq<string>, c: seq<string>)
    ensures a + (b + c) == a + b + c
  {
  }

  lemma {:induction false} SplitAllAppend(lines: seq<string>, more: seq<string>)
    ensures SplitAll(lines + more) == SplitAll(lines) + SplitAll(more)
  {
    hide SplitReturns;
    if lines == [] {
      assert lines + more == more;
    } else {
      SplitAllAppend(lines[1..], more);
      assert (lines + more)[0] == lines[0] && (lines + more)[1..] == lines[1..] + more;
      var first, rest, last := SplitReturns(lines[0]), SplitAll(lines[1..]), SplitAll(more);
      Regroup(first, rest, last);
    }
  }

  lemma NoReturns(line: string)
    requires '\r' !in line
    ensures SplitReturns(line) == [line]
  {
    assert ReturnAt(line) == |line| && line[..|line|] == line;
  }

  /** A carriage return ends a line, unless the newline follows at once. */
  lemma ReturnsSplit(line: string, rest: string)
    requires '\r' !in line
    ensures SplitReturns(line + "\r" + rest) == [line] + if rest == "" then [] else SplitReturns(rest)
  {
    var s, n := line + "\r" + rest, |line|;
    assert s[..n] == line && s[n] == '\r' && s[n + 1..] == rest;
    ReturnAtFirst(s, n);
  }

  lemma {:induction false} ReturnAtFirst(s: string, n: nat)
    requires n < |s| && s[n] == '\r' && '\r' !in s[..n]
    ensures ReturnAt(s) == n
  {
    if n > 0 {
      assert s[..n][0] == s[0] && s[1..][..n - 1] == s[..n][1..];
      ReturnAtFirst(s[1..], n - 1);
    }
  }

  lemma {:induction false} SplitPlain(lines: seq<string>)
    requires forall k | 0 <= k < |lines| :: '\r' !in lines[k]
    ensures SplitAll(lines) == lines
  {
    if lines != [] {
      SplitPlain(lines[1..]);
      NoReturns(lines[0]);
    }
  }

  function Unlines(lines: seq<string>): string {
    if lines == [] then "" else lines[0] + "\n" + Unlines(lines[1..])
  }

  predicate OneLine(s: string) {
    '\n' !in s
  }

  lemma LineEndUnique(s: string, n: nat)
    requires n <= |s| && (n < |s| ==> s[n] == '\n') && OneLine(s[..n])
    ensures LineEnd(s) == n
  {
    assert forall i | 0 <= i < n :: s[i] == s[..n][i];
  }

  lemma LinesFirst(s: string)
    requires s != ""
    ensures Lines(s) == [FirstLine(s)] + Lines(AfterLine(s))
    ensures Lines(s)[0] == FirstLine(s) && Lines(s)[1..] == Lines(AfterLine(s))
  {
  }

  lemma LinesNone()
    ensures Lines("") == []
  {
  }

  /** A newline-terminated line in front is the first line. */
  lemma LinesCons(line: string, rest: string)
    requires OneLine(line)
    ensures Lines(line + "\n" + rest) == [line] + Lines(rest)
  {
    var s := line + "\n" + rest;
    assert s[..|line|] == line;
    LineEndUnique(s, |line|);
    assert s[|line| + 1..] == rest;
  }

  /** Splitting a file written line by line gives the lines back, whatever else follows. */
  lemma {:induction false} LinesOfUnlines(lines: seq<string>, rest: string)
    requires forall k | 0 <= k < |lines| :: OneLine(lines[k])
    ensures Lines(Unlines(lines) + rest) == lines + Lines(rest)
  {
    hide Lines;
    if lines == [] {
      assert Unlines(lines) + rest == rest;
    } else {
      var tail := Unlines(lines[1..]) + rest;
      LinesOfUnlines(lines[1..], rest);
      assert Unlines(lines) + rest == lines[0] + "\n" + tail;
      LinesCons(lines[0], tail);
      assert lines == [lines[0]] + lines[1..];
    }
  }

  /** The final newline may be missing, provided the last line is not empty. */
  lemma LinesWithoutFinalNewline(lines: seq<string>, last: string)
    requires OneLine(last) && last != "" && forall k | 0 <= k < |lines| :: OneLine(lines[k])
    ensures Lines(Unlines(lines) + last) == lines + [last]
  {
    LinesOfUnlines(lines, last);
    assert last[..|last|] == last;
    LineEndUnique(last, |last|);
    assert Lines(last) == [last];
  }

  lemma {:induction false} LinesAreLines(s: string)
    ensures forall k | 0 <= k < |Lines(s)| :: OneLine(Lines(s)[k])
    decreases |s|
  {
    if s != "" {
      LinesAreLines(AfterLine(s));
      assert forall k | 0 < k < |Lines(s)| :: Lines(s)[k] == Lines(AfterLine(s))[k - 1];
    }
  }

  lemma UnlinesFirst(line: string, lines: seq<string>)
    ensures Unlines([line] + lines) == line + "\n" + Unlines(lines)
  {
    assert ([line] + lines)[1..] == lines;
  }

  /** The text with its final newline. */
  function Ended(s: string): string {
    if s == "" || s[|s| - 1] == '\n' then s else s + "\n"
  }

  lemma EndedFirst(s: string)
    requires s != ""
    ensures FirstLine(s) + "\n" + Ended(AfterLine(s)) == Ended(s)
  {
    var rest := AfterLine(s);
    if LineEnd(s) < |s| {
      assert s == FirstLine(s) + "\n" + rest;
    } else {
      assert FirstLine(s) + "\n" + "" == s + "\n";
    }
  }

  /** The other way round: the lines are newline-free, and writing them back restores the text up
      to a missing final newline.  So no other list of lines stands for it. */
  lemma {:induction false} UnlinesOfLines(s: string)
    ensures forall k | 0 <= k < |Lines(s)| :: OneLine(Lines(s)[k])
    ensures Unlines(Lines(s)) == Ended(s)
    decreases |s|
  {
    LinesAreLines(s);
    if s != "" {
      UnlinesOfLines(AfterLine(s));
      UnlinesFirst(FirstLine(s), Lines(AfterLine(s)));
      EndedFirst(s);
    }
  }

  /** Writing and splitting are inverse also between whole texts. */
  lemma {:induction false} UnlinesAppend(a: seq<string>, b: seq<string>)
    ensures Unlines(a + b) == Unlines(a) + Unlines(b)
  {
    if a == [] {
      assert a + b == b;
    } else {
      UnlinesAppend(a[1..], b);
      UnlinesFirst(a[0], a[1..] + b);
      assert a[0] + "\n" + (Unlines(a[1..]) + Unlines(b)) == a[0] + "\n" + Unlines(a[1..]) + Unlines(b);
      assert a + b == [a[0]] + (a[1..] + b);
    }
  }

  // ----- blanks

  predicate IsBlank(c: char) {
    c == ' ' || ('\t' <= c <= '\r')
  }

  /** The whitespace of C and of Python 2, by character code. */
  lemma BlankCodes(c: char)
    ensures IsBlank(c) <==> c as int in {9, 10, 11, 12, 13, 32}
  {
  }

  predicate NoBlanks(s: string) {
    forall i | 0 <= i < |s| :: !IsBlank(s[i])
  }

  function StripLeft(s: string): string {
    if s != "" && IsBlank(s[0]) then StripLeft(s[1..]) else s
  }

  function StripRight(s: string): string {
    if s != "" && IsBlank(s[|s| - 1]) then StripRight(s[..|s| - 1]) else s
  }

  /** `str.strip` */
  function Strip(s: string): string {
    StripRight(StripLeft(s))
  }

  lemma StripNothing(s: string)
    requires NoBlanks(s)
    ensures Strip(s) == s
  {
  }

  lemma {:induction false} StripRightFirst(s: string)
    requires s != "" && !IsBlank(s[0])
    ensures StripRight(s) != "" && StripRight(s)[0] == s[0]
  {
    if IsBlank(s[|s| - 1]) {
      assert |s| > 1;
      StripRightFirst(s[..|s| - 1]);
    }
  }

  /** A text that does not begin with a blank keeps its first character. */
  lemma StripFirst(s: string)
    requires s != "" && !IsBlank(s[0])
    ensures Strip(s) != "" && Strip(s)[0] == s[0]
  {
    StripRightFirst(s);
  }

  predicate AllBlank(s: string) {
    forall i | 0 <= i < |s| :: IsBlank(s[i])
  }

  /** What is stripped is blank, what is left neither begins nor ends with a blank. */
  lemma {:induction false} StripMeaning(s: string) returns (left: string, right: string)
    ensures s == left + Strip(s) + right && AllBlank(left) && AllBlank(right)
    ensures Strip(s) != "" ==> !IsBlank(Strip(s)[0]) && !IsBlank(Strip(s)[|Strip(s)| - 1])
  {
    hide IsBlank;
    left := StripLeftMeaning(s);
    right := StripRightMeaning(StripLeft(s));
    var rest := StripLeft(s);
    assert left + (Strip(s) + right) == left + Strip(s) + right;
    assert Strip(s) != "" ==> Strip(s)[0] == rest[0];
  }

  lemma {:induction false} StripLeftMeaning(s: string) returns (left: string)
    ensures s == left + StripLeft(s) && AllBlank(left) && (StripLeft(s) != "" ==> !IsBlank(StripLeft(s)[0]))
  {
    left := "";
    if s != "" && IsBlank(s[0]) {
      left := StripLeftMeaning(s[1..]);
      left := [s[0]] + left;
    }
  }

  lemma {:induction false} StripRightMeaning(s: string) returns (right: string)
    ensures s == StripRight(s) + right && AllBlank(right)
    ensures StripRight(s) != "" ==> !IsBlank(StripRight(s)[|StripRight(s)| - 1])
  {
    right := "";
    if s != "" && IsBlank(s[|s| - 1]) {
      right := StripRightMeaning(s[..|s| - 1]);
      right := right + [s[|s| - 1]];
    }
  }

  function WordEnd(s: string): (n: nat)
    ensures n <= |s| && NoBlanks(s[..n]) && (n < |s| ==> IsBlank(s[n]))
    ensures s != "" && !IsBlank(s[0]) ==> n > 0
  {
    if s == "" || IsBlank(s[0]) then 0
    else
      var n := 1 + WordEnd(s[1..]);
      assert s[..n] == [s[0]] + s[1..][..n - 1];
      n
  }

  /** `str.split()`: the blank-free words; blanks at either end do not matter. */
  function Words(s: string): seq<string>
    decreases |s|
  {
    if s == "" then []
    else if IsBlank(s[0]) then Words(s[1..])
    else [s[..WordEnd(s)]] + Words(s[WordEnd(s)..])
  }

  lemma WordsWord(word: string, rest: string)
    requires word != "" && NoBlanks(word) && (rest != "" ==> IsBlank(rest[0]))
    ensures Words(word + rest) == [word] + Words(rest)
  {
    var s, n := word + rest, WordEnd(word + rest);
    assert forall i | 0 <= i < |word| :: s[i] == word[i];
    assert forall i | 0 <= i < n :: s[i] == s[..n][i];
    assert s[..|word|] == word && s[|word|..] == rest;
  }

  lemma WordsBlank(rest: string)
    ensures forall c | IsBlank(c) :: Words([c] + rest) == Words(rest)
    ensures Words(" " + rest) == Words(rest)
  {
    forall c | IsBlank(c) ensures Words([c] + rest) == Words(rest) { assert ([c] + rest)[1..] == rest; }
    assert IsBlank(' ');
  }

  // ----- numbers

  function Digit(d: nat): char
    requires d < 10
  {
    ('0' as int + d) as char
  }

  /** `%u` */
  function Decimal(n: nat): (s: string)
    ensures s != "" && forall i | 0 <= i < |s| :: '0' <= s[i] <= '9'
  {
    if n < 10 then [Digit(n)] else Decimal(n / 10) + [Digit(n % 10)]
  }

  predicate AllDigits(s: string) {
    s != "" && forall i | 0 <= i < |s| :: '0' <= s[i] <= '9'
  }

  /** The number a string of digits stands for. */
  function Value(digits: string): int {
    if digits == "" then 0
    else 10 * Value(digits[..|digits| - 1]) + (digits[|digits| - 1] as int - '0' as int)
  }

  lemma {:induction false} DecimalValue(n: nat)
    ensures Value(Decimal(n)) == n
  {
    var s := Decimal(n);
    if n >= 10 {
      DecimalValue(n / 10);
      assert s[..|s| - 1] == Decimal(n / 10);
    }
    assert s[|s| - 1] == Digit(n % 10);
  }
}
