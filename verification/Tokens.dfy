/** The device token codec, src/library/apn_tokens.c.  A C string is the sequence
    of characters before its terminator. */
module Tokens {
  import opened Bytes
  import opened Text

  const BINARY_SIZE := 32
  const HEX_LENGTH := 64

  predicate IsHexDigit(c: char) {
    '0' <= c <= '9' || 'a' <= c <= 'f' || 'A' <= c <= 'F'
  }

  predicate Valid(token: string) {
    |token| == HEX_LENGTH && forall i | 0 <= i < |token| :: IsHexDigit(token[i])
  }

  function DigitValue(c: char): (v: nat)
    requires IsHexDigit(c)
    ensures v < 16
  {
    if c <= '9' then c as int - '0' as int
    else if c <= 'F' then c as int - 'A' as int + 10
    else c as int - 'a' as int + 10
  }

  function UpperDigit(v: nat): (c: char)
    requires v < 16
  {
    if v < 10 then ('0' as int + v) as char else ('A' as int + v - 10) as char
  }

  function UpperCase(c: char): char {
    if 'a' <= c <= 'f' then (c as int - 'a' as int + 'A' as int) as char else c
  }

  /** The bytes a token denotes, two digits a byte. */
  function Binary(token: string): (b: seq<byte>)
    requires Valid(token)
    ensures |b| == BINARY_SIZE
  {
    seq(BINARY_SIZE, i requires 0 <= i < BINARY_SIZE => 16 * DigitValue(token[2 * i]) + DigitValue(token[2 * i + 1]))
  }

  function Hex(b: seq<byte>): (token: string)
    requires |b| == BINARY_SIZE
  {
    seq(HEX_LENGTH, i requires 0 <= i < HEX_LENGTH =>
          UpperDigit(if i % 2 == 0 then b[i / 2] / 16 else b[i / 2] % 16))
  }

  /** `apn_hex_token_is_valid` */
  method IsValid(token: string) returns (ok: bool)
    ensures ok <==> Valid(token)
    ensures ok <==> |token| == 64 && forall i | 0 <= i < |token| :: token[i] in "0123456789abcdefABCDEF"
  {
    ValidCharacters(token);
    if |token| < HEX_LENGTH || |token| > HEX_LENGTH {
      return false;
    }
    var p := 0;
    while p < |token|
      invariant p <= |token|
      invariant forall i | 0 <= i < p :: IsHexDigit(token[i])
    {
      if !IsHexDigit(token[p]) {
        return false;
      }
      p := p + 1;
    }
    return true;
  }

  lemma HexCharacter(c: char)
    ensures IsHexDigit(c) <==> c in "0123456789abcdefABCDEF"
  {
    var all := "0123456789abcdefABCDEF";
    assert forall k | 0 <= k < 10 :: all[k] as int == '0' as int + k;
    assert forall k | 10 <= k < 16 :: all[k] as int == 'a' as int + k - 10;
    assert forall k | 16 <= k < 22 :: all[k] as int == 'A' as int + k - 16;
    if '0' <= c <= '9' { assert all[c as int - '0' as int] == c; }
    if 'a' <= c <= 'f' { assert all[c as int - 'a' as int + 10] == c; }
    if 'A' <= c <= 'F' { assert all[c as int - 'A' as int + 16] == c; }
  }

  lemma ValidCharacters(token: string)
    ensures Valid(token) <==> |token| == 64 && forall i | 0 <= i < |token| :: token[i] in "0123456789abcdefABCDEF"
  {
    hide IsHexDigit;
    forall i | 0 <= i < |token| ensures IsHexDigit(token[i]) <==> token[i] in "0123456789abcdefABCDEF" {
      HexCharacter(token[i]);
    }
  }

  /** The two characters for a digit, by their place in the alphabet. */
  lemma DigitPlace(v: nat, c: char)
    requires v < 16 && (c == "0123456789abcdef"[v] || c == "0123456789ABCDEF"[v])
    ensures IsHexDigit(c) && DigitValue(c) == v
  {
    var lower, upper := "0123456789abcdef", "0123456789ABCDEF";
    assert forall k | 0 <= k < 10 :: lower[k] as int == upper[k] as int == '0' as int + k;
    assert forall k | 10 <= k < 16 :: lower[k] as int == 'a' as int + k - 10 && upper[k] as int == 'A' as int + k - 10;
  }

  /** Every spelling of every 32 bytes, in letters of either case, is accepted and denotes them. */
  lemma EverySpelling(b: seq<byte>, token: string)
    requires |b| == 32 && |token| == 64
    requires forall i | 0 <= i < 64 ::
               var v: nat := if i % 2 == 0 then b[i / 2] / 16 else b[i / 2] % 16;
               token[i] == "0123456789abcdef"[v] || token[i] == "0123456789ABCDEF"[v]
    ensures Valid(token) && Binary(token) == b
  {
    hide IsHexDigit, DigitValue;
    forall i | 0 <= i < 64
      ensures IsHexDigit(token[i]) && DigitValue(token[i]) == if i % 2 == 0 then b[i / 2] / 16 else b[i / 2] % 16
    {
      DigitPlace(if i % 2 == 0 then b[i / 2] / 16 else b[i / 2] % 16, token[i]);
    }
    forall k | 0 <= k < 32 ensures Binary(token)[k] == b[k] {
      assert 2 * k / 2 == k && (2 * k + 1) / 2 == k && 2 * k % 2 == 0 && (2 * k + 1) % 2 == 1;
      assert IsHexDigit(token[2 * k]) && IsHexDigit(token[2 * k + 1]);
    }
  }

  /** What `sscanf` with `%x` makes of two characters, as a byte: leading blanks and a sign are taken,
      reading stops at the first other character, and nothing read leaves the zero. */
  function Scanned(c: char, d: char): (v: byte)
    ensures IsHexDigit(c) && IsHexDigit(d) ==> v == 16 * DigitValue(c) + DigitValue(d)
  {
    if IsHexDigit(c) then
      if IsHexDigit(d) then 16 * DigitValue(c) + DigitValue(d) else DigitValue(c)
    else if (IsBlank(c) || c == '+') && IsHexDigit(d) then DigitValue(d)
    else if c == '-' && IsHexDigit(d) then (256 - DigitValue(d)) % 256
    else 0
  }

  /** The number `sscanf` reads with `%x`: blanks, a sign, then digits as far as they go. */
  function HexNumber(s: string): int {
    if s != "" && IsBlank(s[0]) then HexNumber(s[1..])
    else if s != "" && s[0] == '-' then -HexDigits(s[1..], 0)
    else if s != "" && s[0] == '+' then HexDigits(s[1..], 0)
    else HexDigits(s, 0)
  }

  function HexDigits(s: string, n: int): int {
    if s != "" && IsHexDigit(s[0]) then HexDigits(s[1..], 16 * n + DigitValue(s[0])) else n
  }

  lemma OneCharacter(d: char)
    ensures forall n: int :: HexDigits([d], n) == if IsHexDigit(d) then 16 * n + DigitValue(d) else n
    ensures HexNumber([d]) == if IsHexDigit(d) then DigitValue(d) else 0
    ensures IsHexDigit(d) ==> d != '-' && d != '+' && !IsBlank(d)
  {
    assert [d][1..] == [];
    assert forall n: int :: HexDigits([], n) == n;
    assert HexNumber([]) == 0;
    assert HexNumber([d]) == if IsBlank(d) then HexNumber([]) else if d == '-' then -HexDigits([], 0)
                             else if d == '+' then HexDigits([], 0) else HexDigits([d], 0);
  }

  /** The two characters taken as a string, and the number cut to a byte. */
  lemma ScannedMeaning(c: char, d: char)
    ensures Scanned(c, d) == HexNumber([c, d]) % 256
  {
    hide IsHexDigit, DigitValue;
    assert [c, d][1..] == [d];
    OneCharacter(c);
    OneCharacter(d);
    assert HexDigits([c, d], 0) == if IsHexDigit(c) then HexDigits([d], DigitValue(c)) else 0;
    assert HexNumber([c, d]) ==
           if IsBlank(c) then HexNumber([d])
           else if c == '-' then -HexDigits([d], 0)
           else if c == '+' then HexDigits([d], 0)
           else HexDigits([c, d], 0);
  }

  /** `apn_token_hex_to_binary`: it reads 64 characters, whatever they are. */
  method HexToBinary(token: string) returns (binary: array<byte>)
    requires |token| >= HEX_LENGTH
    ensures fresh(binary) && binary.Length == BINARY_SIZE
    ensures forall k | 0 <= k < BINARY_SIZE :: binary[k] == Scanned(token[2 * k], token[2 * k + 1])
    ensures Valid(token) ==> binary[..] == Binary(token)
  {
    binary := new byte[BINARY_SIZE](_ => 0);
    var i, j := 0, 0;
    while i < BINARY_SIZE * 2
      invariant i == 2 * j && j <= BINARY_SIZE
      invariant forall k | 0 <= k < j :: binary[k] == Scanned(token[2 * k], token[2 * k + 1])
    {
      binary[j] := Scanned(token[i], token[i + 1]);
      i, j := i + 2, j + 1;
    }
  }

  /** `apn_token_binary_to_hex`: every `snprintf` of two digits also writes a terminator,
      which the next one overwrites. */
  method BinaryToHex(binary: seq<byte>) returns (token: array<char>)
    requires |binary| == BINARY_SIZE
    ensures fresh(token) && token.Length == HEX_LENGTH + 1
    ensures token[..HEX_LENGTH] == Hex(binary) && token[HEX_LENGTH] == '\0'
  {
    token := new char[HEX_LENGTH + 1];
    var p, i := 0, 0;
    while i < BINARY_SIZE
      invariant i <= BINARY_SIZE && p == 2 * i
      invariant forall k | 0 <= k < p :: token[k] == Hex(binary)[k]
      invariant i > 0 ==> token[p] == '\0'
    {
      token[p] := UpperDigit(binary[i] / 16);
      token[p + 1] := UpperDigit(binary[i] % 16);
      token[p + 2] := '\0';
      p, i := p + 2, i + 1;
    }
  }

  lemma UpperDigitValue(v: nat)
    requires v < 16
    ensures IsHexDigit(UpperDigit(v)) && DigitValue(UpperDigit(v)) == v
  {
  }

  lemma DigitValueUpper(c: char)
    requires IsHexDigit(c)
    ensures UpperDigit(DigitValue(c)) == UpperCase(c)
  {
  }

  lemma HexValid(b: seq<byte>)
    requires |b| == BINARY_SIZE
    ensures Valid(Hex(b))
  {
    forall i | 0 <= i < HEX_LENGTH ensures IsHexDigit(Hex(b)[i]) {
      UpperDigitValue(if i % 2 == 0 then b[i / 2] / 16 else b[i / 2] % 16);
    }
  }

  /** Printing a binary token and scanning it gives it back. */
  lemma BinaryOfHex(b: seq<byte>)
    requires |b| == BINARY_SIZE
    ensures Valid(Hex(b)) && Binary(Hex(b)) == b
  {
    HexValid(b);
    forall i | 0 <= i < BINARY_SIZE ensures Binary(Hex(b))[i] == b[i] {
      assert (2 * i) / 2 == i && (2 * i) % 2 == 0 && (2 * i + 1) / 2 == i && (2 * i + 1) % 2 == 1;
      UpperDigitValue(b[i] / 16);
      UpperDigitValue(b[i] % 16);
    }
  }

  /** Scanning a token and printing it changes nothing but the case of its letters. */
  lemma HexOfBinary(token: string)
    requires Valid(token)
    ensures |Hex(Binary(token))| == HEX_LENGTH
    ensures forall i | 0 <= i < HEX_LENGTH :: Hex(Binary(token))[i] == UpperCase(token[i])
  {
    forall i | 0 <= i < HEX_LENGTH ensures Hex(Binary(token))[i] == UpperCase(token[i]) {
      var j := i / 2;
      var hi, lo := DigitValue(token[2 * j]), DigitValue(token[2 * j + 1]);
      assert Binary(token)[j] / 16 == hi && Binary(token)[j] % 16 == lo;
      DigitValueUpper(token[2 * j]);
      DigitValueUpper(token[2 * j + 1]);
    }
  }

  /** Two valid tokens denote the same device exactly when they differ at most in case. */
  lemma BinaryEqual(t: string, u: string)
    requires Valid(t) && Valid(u)
    ensures Binary(t) == Binary(u) <==> forall i | 0 <= i < HEX_LENGTH :: UpperCase(t[i]) == UpperCase(u[i])
  {
    HexOfBinary(t);
    HexOfBinary(u);
    if forall i | 0 <= i < HEX_LENGTH :: UpperCase(t[i]) == UpperCase(u[i]) {
      assert Hex(Binary(t)) == Hex(Binary(u));
      BinaryOfHex(Binary(t));
      BinaryOfHex(Binary(u));
    }
  }
}
