/** The token file: the reader of src/pusher/pusher.c, the bounded copies of
    src/library/apn_strings.c it uses, and the cut of src/pypusher/utils/file.py. */
module TokenFile {
  import opened Text

  /** A C string in memory ends at the first NUL. */
  function UpToNul(s: string): string {
    if s == "" || s[0] == '\0' then "" else [s[0]] + UpToNul(s[1..])
  }

  lemma {:induction false} UpToNulPrefix(s: string, n: nat)
    requires n <= |s| && (forall i | 0 <= i < n :: s[i] != '\0') && (n < |s| ==> s[n] == '\0')
    ensures UpToNul(s) == s[..n]
  {
    if n > 0 {
      UpToNulPrefix(s[1..], n - 1);
      assert s[..n] == [s[0]] + s[1..][..n - 1];
    }
  }

  /** `apn_strncpy` into a buffer of exactly `dstSize` characters: the string at the source, cut to
      the given size.  A size that does not fit is cut by one, so a source that goes on beyond the
      buffer has to end within it. */
  method StrNCpy(dst: array<char>, src: string, dstSize: nat, srcSize: nat)
    requires dstSize == dst.Length
    requires '\0' !in src ==> |src| >= if dstSize <= srcSize && srcSize > 0 then srcSize - 1 else srcSize
    requires srcSize > dstSize > 0 ==> dstSize <= |src| && '\0' in src[..dstSize]
    modifies dst
    ensures dstSize > 0 ==>
              var size := if srcSize == 0 then 0 else if dstSize <= srcSize then srcSize - 1 else srcSize;
              UpToNul(dst[..]) == UpToNul(if size <= |src| then src[..size] else src)
  {
    if dstSize == 0 {
      return;
    }
    if srcSize == 0 {
      dst[0] := '\0';
      return;
    }
    var size := if dstSize <= srcSize then srcSize - 1 else srcSize;
    ghost var part := if size <= |src| then src[..size] else src;
    var k := 0;
    while k < size
      invariant k <= size && k <= |part| && k < dstSize
      invariant forall i | 0 <= i < k :: dst[i] == part[i] != '\0'
    {
      dst[k] := src[k];
      if dst[k] == '\0' {
        UpToNulPrefix(dst[..], k);
        UpToNulPrefix(part, k);
        assert dst[..][..k] == part[..k];
        return;
      }
      k := k + 1;
    }
    dst[k] := '\0';
    UpToNulPrefix(dst[..], k);
    UpToNulPrefix(part, k);
    assert dst[..][..k] == part[..k];
  }

  /** `apn_substr` */
  method SubStr(dst: array<char>, src: string, dstSize: nat, start: nat, stop: nat)
    requires dstSize == dst.Length && start <= stop <= |src|
    modifies dst
    ensures dstSize > 0 ==>
              UpToNul(dst[..]) == UpToNul(src[start..if stop - start < dstSize then stop else start + dstSize - 1])
  {
    if dstSize == 0 {
      return;
    }
    var count := stop - start;
    if count >= dstSize - 1 {
      count := dstSize;
    }
    StrNCpy(dst, src[start..], dstSize, count);
    assert stop - start >= dstSize - 1 ==> src[start..][..dstSize - 1] == src[start..start + dstSize - 1];
    assert stop - start < dstSize - 1 ==> src[start..][..count] == src[start..stop];
  }

  function Cleaned(lines: seq<string>): (r: seq<string>)
    ensures |r| == |lines|
  {
    seq(|lines|, k requires 0 <= k < |lines| => UpToNul(lines[k]))
  }

  lemma CleanedCons(line: string, lines: seq<string>)
    ensures Cleaned([line] + lines) == [UpToNul(line)] + Cleaned(lines)
  {
  }

  /** `__apn_read_tokens_from_file` on the mapped bytes of a file; a file without bytes cannot be
      mapped.  The tokens are the lines, empty ones included. */
  method ReadTokens(buffer: string) returns (ok: bool, tokens: seq<string>)
    ensures ok <==> |buffer| > 0
    ensures tokens == Cleaned(Lines(buffer))
  {
    hide ReadSoFar, IsToken, Lines, Cleaned;
    tokens := [];
    if |buffer| == 0 {
      NothingRead(buffer);
      return false, tokens;
    }
    var start, end := 0, 0;
    ReadNothing(buffer);
    while true
      invariant start <= end < |buffer|
      invariant forall k | start <= k < end :: buffer[k] != '\n'
      invariant ReadSoFar(buffer, start, tokens)
      decreases |buffer| - end
    {
      if buffer[end] != '\n' {
        end := end + 1;
        if end < |buffer| {
          continue;
        }
      }
      var token := CopyLine(buffer, start, end);
      ReadLine(buffer, start, end, tokens, token);
      tokens := tokens + [token];
      end := end + 1;
      start := end;
      if start >= |buffer| {
        return true, tokens;
      }
    }
  }

  /** The tokens are the lines before position `start`. */
  ghost predicate ReadSoFar(buffer: string, start: nat, tokens: seq<string>)
    requires start <= |buffer|
  {
    Cleaned(Lines(buffer)) == tokens + Cleaned(Lines(buffer[start..]))
  }

  lemma NothingRead(buffer: string)
    requires |buffer| == 0
    ensures Cleaned(Lines(buffer)) == []
  {
  }

  lemma ReadNothing(buffer: string)
    ensures ReadSoFar(buffer, 0, [])
  {
    assert buffer[0..] == buffer;
  }

  ghost predicate IsToken(buffer: string, start: nat, end: nat, token: string)
    requires start <= end <= |buffer|
  {
    token == UpToNul(buffer[start..end])
  }

  /** One more token moves the position behind its line, or finishes the file. */
  lemma ReadLine(buffer: string, start: nat, end: nat, tokens: seq<string>, token: string)
    requires start <= end <= |buffer| && start < |buffer| && ReadSoFar(buffer, start, tokens)
    requires (forall k | start <= k < end :: buffer[k] != '\n') && (end < |buffer| ==> buffer[end] == '\n')
    requires IsToken(buffer, start, end, token)
    ensures if end + 1 < |buffer| then ReadSoFar(buffer, end + 1, tokens + [token])
            else Cleaned(Lines(buffer)) == tokens + [token]
  {
    hide Lines, UpToNul;
    NextLine(buffer, start, end);
    var line, more := buffer[start..end], if end + 1 < |buffer| then Lines(buffer[end + 1..]) else [];
    CleanedCons(line, more);
    assert tokens + ([UpToNul(line)] + Cleaned(more)) == tokens + [UpToNul(line)] + Cleaned(more);
  }

  /** One token is copied out of the mapped file. */
  method CopyLine(buffer: string, start: nat, end: nat) returns (line: string)
    requires start <= end <= |buffer|
    ensures IsToken(buffer, start, end, line)
  {
    var tokenSize := (end - start) + 1;
    var token := new char[tokenSize](_ => '\0');
    SubStr(token, buffer[start..], tokenSize, 0, tokenSize - 1);
    assert buffer[start..][0..end - start] == buffer[start..end];
    line := UpToNul(token[..]);
  }

  /** Between `start` and `end` lies the first line of what begins at `start`. */
  lemma NextLine(buffer: string, start: nat, end: nat)
    requires start <= end <= |buffer| && start < |buffer|
    requires OneLine(buffer[start..end]) && (end < |buffer| ==> buffer[end] == '\n')
    ensures Lines(buffer[start..]) ==
            [buffer[start..end]] + if end + 1 < |buffer| then Lines(buffer[end + 1..]) else []
  {
    hide Lines, LineEnd;
    var rest := buffer[start..];
    assert rest[..end - start] == buffer[start..end];
    LineEndUnique(rest, end - start);
    LinesFirst(rest);
    if end < |buffer| {
      assert rest[end - start + 1..] == buffer[end + 1..];
    }
    LinesNone();
  }

  /** Reading a file written one token a line gives the tokens back. */
  lemma ReadBack(tokens: seq<string>)
    requires forall k | 0 <= k < |tokens| :: OneLine(tokens[k]) && '\0' !in tokens[k]
    ensures Cleaned(Lines(Unlines(tokens))) == tokens
  {
    LinesOfUnlines(tokens, "");
    assert Unlines(tokens) + "" == Unlines(tokens);
    forall k | 0 <= k < |tokens| ensures UpToNul(tokens[k]) == tokens[k] {
      UpToNulPrefix(tokens[k], |tokens[k]|);
    }
  }

  // ----- cutting the file

  /** The text behind its first `n` lines. */
  function DropLines(s: string, n: nat): string
    decreases n
  {
    if n == 0 then s else DropLines(AfterLine(s), n - 1)
  }

  /** The text behind the first line that is `t` up to blanks, nothing if there is none. */
  function CutAfter(s: string, t: string): string
    decreases |s|
  {
    if s == "" then "" else if Strip(FirstLine(s)) == t then AfterLine(s) else CutAfter(AfterLine(s), t)
  }

  class File {
    var content: string

    constructor (content: string)
      ensures this.content == content
    {
      this.content := content;
    }

    /** `remove_file_lines`: by number of lines if one is given, else up to the first line that
        equals `line` */
    method RemoveLines(lineNo: nat, line: string)
      modifies this
      ensures content == if lineNo > 0 then DropLines(old(content), lineNo) else CutAfter(old(content), Strip(line))
    {
      var rest := content;
      if lineNo > 0 {
        var i := 0;
        while i < lineNo
          invariant i <= lineNo
          invariant DropLines(rest, lineNo - i) == DropLines(content, lineNo)
        {
          rest := AfterLine(rest);
          i := i + 1;
        }
      } else {
        var wanted := Strip(line);
        while rest != ""
          invariant CutAfter(rest, wanted) == CutAfter(content, wanted)
          decreases |rest|
        {
          var first := FirstLine(rest);
          rest := AfterLine(rest);
          if Strip(first) == wanted {
            break;
          }
        }
      }
      content := rest;
    }
  }

  /** The index of the first line that is `t` up to blanks, or the number of lines. */
  function FirstMatch(lines: seq<string>, t: string): (n: nat)
    ensures n <= |lines|
  {
    if lines == [] || Strip(lines[0]) == t then 0 else 1 + FirstMatch(lines[1..], t)
  }

  lemma {:induction false} FirstMatchBefore(lines: seq<string>, k: nat)
    requires k < |lines|
    ensures FirstMatch(lines, Strip(lines[k])) <= k
  {
    if k > 0 { FirstMatchBefore(lines[1..], k - 1); }
  }

  lemma {:induction false} FirstMatchDistinct(lines: seq<string>, k: nat)
    requires k < |lines| && forall i | 0 <= i < k :: Strip(lines[i]) != Strip(lines[k])
    ensures FirstMatch(lines, Strip(lines[k])) == k
  {
    if k > 0 {
      assert Strip(lines[0]) != Strip(lines[k]);
      FirstMatchDistinct(lines[1..], k - 1);
    }
  }

  /** What a cut by number leaves: the lines behind the first `n`. */
  lemma {:induction false} DropLinesLines(s: string, n: nat)
    ensures Lines(DropLines(s, n)) == if n <= |Lines(s)| then Lines(s)[n..] else []
    decreases n
  {
    hide Lines, LineEnd;
    if n > 0 {
      DropLinesLines(AfterLine(s), n - 1);
      if s == "" {
        LinesNone();
      } else {
        LinesFirst(s);
      }
    }
  }

  /** What a cut at a token leaves: the lines behind the first match. */
  lemma {:induction false} CutAfterLines(s: string, t: string)
    ensures var n := FirstMatch(Lines(s), t);
            Lines(CutAfter(s, t)) == if n < |Lines(s)| then Lines(s)[n + 1..] else []
    decreases |s|
  {
    hide Lines, FirstLine, AfterLine, Strip;
    if s == "" {
      LinesNone();
    } else {
      var rest := AfterLine(s);
      LinesFirst(s);
      if Strip(FirstLine(s)) != t {
        CutAfterLines(rest, t);
        var n := FirstMatch(Lines(rest), t);
        assert n < |Lines(rest)| ==> Lines(s)[1..][n + 1..] == Lines(s)[n + 2..];
      }
    }
  }

  /** The two cuts agree: behind the line with index `k`, or behind the first line equal to it, as
      long as no earlier line is equal. */
  lemma {:induction false} CutsAgree(s: string, k: nat)
    requires k < |Lines(s)| && forall i | 0 <= i < k :: Strip(Lines(s)[i]) != Strip(Lines(s)[k])
    ensures DropLines(s, k + 1) == CutAfter(s, Strip(Lines(s)[k]))
    decreases k
  {
    var lines, rest := Lines(s), AfterLine(s);
    assert lines[0] == FirstLine(s) && lines[1..] == Lines(rest);
    hide Lines, Strip, AfterLine, FirstLine;
    if k > 0 {
      assert Strip(lines[0]) != Strip(lines[k]);
      assert forall i | 0 <= i < k :: Lines(rest)[i] == lines[i + 1];
      CutsAgree(rest, k - 1);
    }
  }
}
