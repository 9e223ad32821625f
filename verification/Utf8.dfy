/** The UTF-8 scanner of src/library/apn_strings.c. */
module Utf8 {
  import opened Bytes

  /** `_apn_seq_octets`, the length a lead byte announces, -1 if it is none. */
  function SeqOctets(ch: byte): int {
    if ch / 128 == 0x0 then 1
    else if ch / 32 == 0x6 then 2
    else if ch / 16 == 0xE then 3
    else if ch / 8 == 0x1E then 4
    else -1
  }

  predicate Continuation(ch: byte) {
    0x80 <= ch <= 0xFB
  }

  /** A lead byte with as many continuation bytes as it announces. */
  predicate IsUnit(u: seq<byte>) {
    |u| > 0 && SeqOctets(u[0]) == |u| && forall k | 1 <= k < |u| :: Continuation(u[k])
  }

  /** The units in ranges of bytes. */
  lemma UnitTable(u: seq<byte>)
    ensures IsUnit(u) <==>
            || (|u| == 1 && u[0] <= 0x7F)
            || (|u| == 2 && 0xC0 <= u[0] <= 0xDF && 0x80 <= u[1] <= 0xFB)
            || (|u| == 3 && 0xE0 <= u[0] <= 0xEF && 0x80 <= u[1] <= 0xFB && 0x80 <= u[2] <= 0xFB)
            || (|u| == 4 && 0xF0 <= u[0] <= 0xF7 && 0x80 <= u[1] <= 0xFB && 0x80 <= u[2] <= 0xFB && 0x80 <= u[3] <= 0xFB)
  {
  }

  predicate AllUnits(units: seq<seq<byte>>) {
    forall k | 0 <= k < |units| :: IsUnit(units[k])
  }

  function Flatten(units: seq<seq<byte>>): seq<byte> {
    if units == [] then [] else units[0] + Flatten(units[1..])
  }

  /** Reading units from the front. */
  predicate Scan(s: seq<byte>)
    decreases |s|
  {
    s == [] || (var n := SeqOctets(s[0]); n != -1 && n <= |s| && IsUnit(s[..n]) && Scan(s[n..]))
  }

  /** `apn_string_is_utf8` on a C string, terminator included.  All accesses are within it. */
  method IsUtf8(str: seq<byte>) returns (ok: bool)
    requires |str| > 0 && str[|str| - 1] == 0 && forall k | 0 <= k < |str| - 1 :: str[k] != 0
    ensures ok <==> Scan(str[..|str| - 1])
  {
    var length := |str| - 1;
    ghost var s := str[..length];
    var i := 0;
    assert s[0..] == s;
    while i < length
      invariant 0 <= i <= length
      invariant Scan(s[i..]) == Scan(s)
    {
      var octets := SeqOctets(str[i]);
      assert s[i..][0] == str[i];
      if octets == -1 {
        return false;
      }
      var j := 1;
      while j < octets
        invariant 1 <= j <= octets && i + j <= length
        invariant forall m | i < m < i + j :: Continuation(str[m])
      {
        if str[i + j] < 0x80 || str[i + j] > 0xFB {
          Broken(s[i..], octets, j);
          return false;
        }
        assert i + j < length;
        j := j + 1;
      }
      ghost var unit := s[i..][..octets];
      assert forall k | 0 <= k < octets :: unit[k] == str[i + k];
      assert IsUnit(unit);
      assert s[i..][octets..] == s[i + octets..];
      i := i + octets;
    }
    assert s[i..] == [];
    return true;
  }

  /** A unit broken off by another byte, or by the end of the string. */
  lemma Broken(s: seq<byte>, octets: int, j: nat)
    requires |s| > 0 && octets == SeqOctets(s[0]) && 1 <= j < octets
    requires j < |s| ==> !Continuation(s[j])
    ensures !Scan(s)
  {
    if octets <= |s| {
      assert s[..octets][j] == s[j];
    }
  }

  /** The scanner accepts exactly the concatenations of units. */
  lemma {:induction false} ScanComplete(units: seq<seq<byte>>)
    requires AllUnits(units)
    ensures Scan(Flatten(units))
  {
    if units != [] {
      var u, s := units[0], Flatten(units);
      assert IsUnit(u);
      ScanComplete(units[1..]);
      assert s[..|u|] == u && s[|u|..] == Flatten(units[1..]);
    }
  }

  lemma {:induction false} ScanSound(s: seq<byte>) returns (units: seq<seq<byte>>)
    requires Scan(s)
    ensures AllUnits(units) && Flatten(units) == s
    decreases |s|
  {
    if s == [] {
      units := [];
    } else {
      var n := SeqOctets(s[0]);
      var rest := ScanSound(s[n..]);
      units := [s[..n]] + rest;
      assert units[1..] == rest;
    }
  }

  lemma FlattenNonempty(units: seq<seq<byte>>)
    requires AllUnits(units)
    ensures Flatten(units) == [] <==> units == []
  {
    assert units != [] ==> IsUnit(units[0]);
  }

  /** The split into units is unique. */
  lemma {:induction false} SplitUnique(us: seq<seq<byte>>, vs: seq<seq<byte>>)
    requires AllUnits(us) && AllUnits(vs) && Flatten(us) == Flatten(vs)
    ensures us == vs
  {
    FlattenNonempty(us);
    FlattenNonempty(vs);
    if us != [] {
      var s := Flatten(us);
      assert IsUnit(us[0]) && IsUnit(vs[0]);
      assert s[0] == us[0][0] && s[0] == vs[0][0];
      assert us[0] == s[..|us[0]|] && vs[0] == s[..|vs[0]|];
      assert Flatten(us[1..]) == s[|us[0]|..] && Flatten(vs[1..]) == s[|vs[0]|..];
      SplitUnique(us[1..], vs[1..]);
      assert us == [us[0]] + us[1..] && vs == [vs[0]] + vs[1..];
    }
  }

  // ----- section 4 of RFC 3629

  predicate IsScalar(v: int) {
    0 <= v <= 0x10FFFF && !(0xD800 <= v <= 0xDFFF)
  }

  function EncodeScalar(v: int): seq<byte>
    requires IsScalar(v)
  {
    if v < 0x80 then [v]
    else if v < 0x800 then [0xC0 + v / 64, 0x80 + v % 64]
    else if v < 0x10000 then [0xE0 + v / 4096, 0x80 + v / 64 % 64, 0x80 + v % 64]
    else [0xF0 + v / 262144, 0x80 + v / 4096 % 64, 0x80 + v / 64 % 64, 0x80 + v % 64]
  }

  predicate Scalars(vs: seq<int>) {
    forall k | 0 <= k < |vs| :: IsScalar(vs[k])
  }

  function EncodeAll(vs: seq<int>): seq<byte>
    requires Scalars(vs)
  {
    if vs == [] then [] else EncodeScalar(vs[0]) + EncodeAll(vs[1..])
  }

  function Encodings(vs: seq<int>): (units: seq<seq<byte>>)
    requires Scalars(vs)
    ensures |units| == |vs| && forall k | 0 <= k < |vs| :: units[k] == EncodeScalar(vs[k])
  {
    seq(|vs|, k requires 0 <= k < |vs| => EncodeScalar(vs[k]))
  }

  lemma {:induction false} EncodeAllFlatten(vs: seq<int>)
    requires Scalars(vs)
    ensures EncodeAll(vs) == Flatten(Encodings(vs))
  {
    if vs != [] {
      EncodeAllFlatten(vs[1..]);
      assert Encodings(vs)[1..] == Encodings(vs[1..]);
    }
  }

  /** Text in UTF-8. */
  ghost predicate IsText(s: seq<byte>) {
    exists vs: seq<int> | Scalars(vs) :: EncodeAll(vs) == s
  }

  /** The well-formed byte sequences of section 4 of RFC 3629. */
  predicate Strict(u: seq<byte>) {
    && IsUnit(u)
    && (forall k | 1 <= k < |u| :: u[k] <= 0xBF)
    && (|u| == 2 ==> 0xC2 <= u[0])
    && (|u| == 3 && u[0] == 0xE0 ==> 0xA0 <= u[1])
    && (|u| == 3 && u[0] == 0xED ==> u[1] <= 0x9F)
    && (|u| == 4 && u[0] == 0xF0 ==> 0x90 <= u[1])
    && (|u| == 4 && u[0] == 0xF4 ==> u[1] <= 0x8F)
    && (|u| == 4 ==> u[0] <= 0xF4)
  }

  predicate AllStrict(units: seq<seq<byte>>) {
    forall k | 0 <= k < |units| :: Strict(units[k])
  }

  lemma EncodingStrict(v: int)
    requires IsScalar(v)
    ensures Strict(EncodeScalar(v))
  {
    if v >= 0x10000 { EncodingStrict4(v); }
  }

  lemma EncodingStrict4(v: int)
    requires IsScalar(v) && v >= 0x10000
    ensures Strict(EncodeScalar(v))
  {
    assert 0 <= v / 262144 <= 4 && (v / 262144 == 0 ==> v / 4096 >= 16) && (v / 262144 == 4 ==> v / 4096 < 272);
  }

  lemma Quotient(hi: int, lo: int)
    requires 0 <= lo < 64
    ensures (hi * 64 + lo) / 64 == hi && (hi * 64 + lo) % 64 == lo
  {
  }

  function DecodeUnit(u: seq<byte>): int
    requires IsUnit(u)
  {
    var a: int := u[0];
    if |u| == 1 then a
    else
      var b := u[1] - 0x80;
      if |u| == 2 then (a - 0xC0) * 64 + b
      else
        var c := u[2] - 0x80;
        if |u| == 3 then ((a - 0xE0) * 64 + b) * 64 + c
        else (((a - 0xF0) * 64 + b) * 64 + c) * 64 + (u[3] - 0x80)
  }

  lemma StrictDecodes2(u: seq<byte>)
    requires Strict(u) && |u| == 2
    ensures IsScalar(DecodeUnit(u)) && EncodeScalar(DecodeUnit(u)) == u
  {
    Quotient(u[0] - 0xC0, u[1] - 0x80);
  }

  lemma StrictDecodes3(u: seq<byte>)
    requires Strict(u) && |u| == 3
    ensures IsScalar(DecodeUnit(u)) && EncodeScalar(DecodeUnit(u)) == u
  {
    var a: int, b: int, c: int, v: int := u[0] - 0xE0, u[1] - 0x80, u[2] - 0x80, DecodeUnit(u);
    Quotient(a * 64 + b, c);
    Quotient(a, b);
    assert v == (a * 64 + b) * 64 + c;
    assert v / 4096 == v / 64 / 64;
  }

  lemma StrictDecodes4(u: seq<byte>)
    requires Strict(u) && |u| == 4
    ensures IsScalar(DecodeUnit(u)) && EncodeScalar(DecodeUnit(u)) == u
  {
    var a: int, b: int, c: int, d: int := u[0] - 0xF0, u[1] - 0x80, u[2] - 0x80, u[3] - 0x80;
    var v := DecodeUnit(u);
    Quotient((a * 64 + b) * 64 + c, d);
    Quotient(a * 64 + b, c);
    Quotient(a, b);
    assert v == ((a * 64 + b) * 64 + c) * 64 + d;
    assert v / 4096 == v / 64 / 64 && v / 262144 == v / 4096 / 64;
  }

  /** A unit is the encoding of a scalar value if and only if it is strict. */
  lemma StrictExactly(u: seq<byte>)
    requires IsUnit(u)
    ensures Strict(u) <==> exists v | IsScalar(v) :: EncodeScalar(v) == u
  {
    if Strict(u) {
      if |u| == 2 { StrictDecodes2(u); }
      if |u| == 3 { StrictDecodes3(u); }
      if |u| == 4 { StrictDecodes4(u); }
      if |u| == 1 { assert EncodeScalar(u[0]) == u; }
      assert IsScalar(DecodeUnit(u)) && EncodeScalar(DecodeUnit(u)) == u;
    }
    if exists v | IsScalar(v) :: EncodeScalar(v) == u {
      var v :| IsScalar(v) && EncodeScalar(v) == u;
      EncodingStrict(v);
    }
  }

  lemma {:induction false} StrictText(units: seq<seq<byte>>) returns (vs: seq<int>)
    requires AllStrict(units)
    ensures Scalars(vs) && EncodeAll(vs) == Flatten(units)
  {
    if units == [] {
      vs := [];
    } else {
      hide IsScalar, EncodeScalar;
      var rest := StrictText(units[1..]);
      assert IsUnit(units[0]) by { StrictIsUnit(units[0]); }
      StrictExactly(units[0]);
      var v :| IsScalar(v) && EncodeScalar(v) == units[0];
      vs := [v] + rest;
      assert vs[1..] == rest;
    }
  }

  lemma StrictIsUnit(u: seq<byte>)
    requires Strict(u)
    ensures IsUnit(u)
  {
  }

  /** The units are those of a text in UTF-8 if and only if each is strict. */
  lemma {:induction false} UnitsText(units: seq<seq<byte>>)
    requires AllUnits(units)
    ensures IsText(Flatten(units)) <==> AllStrict(units)
  {
    hide Strict, IsScalar, EncodeScalar, Flatten, EncodeAll, IsUnit;
    if IsText(Flatten(units)) {
      var vs :| Scalars(vs) && EncodeAll(vs) == Flatten(units);
      EncodeAllFlatten(vs);
      forall k | 0 <= k < |vs| ensures Strict(Encodings(vs)[k]) && IsUnit(Encodings(vs)[k]) {
        EncodingStrict(vs[k]);
        StrictIsUnit(EncodeScalar(vs[k]));
      }
      SplitUnique(units, Encodings(vs));
    }
    if AllStrict(units) {
      var vs := StrictText(units);
      assert EncodeAll(vs) == Flatten(units);
    }
  }

  /** The units of an accepted string. */
  function Split(s: seq<byte>): (units: seq<seq<byte>>)
    requires Scan(s)
    ensures AllUnits(units) && Flatten(units) == s
    decreases |s|
  {
    if s == [] then []
    else
      var n := SeqOctets(s[0]);
      var units := [s[..n]] + Split(s[n..]);
      assert units[1..] == Split(s[n..]);
      units
  }

  /** Main result, exact for every string of bytes: it is text in UTF-8 if and only if the scanner
      accepts it and none of its units is overlong, a surrogate, out of range, or continued by a byte
      above 0xBF. */
  lemma {:induction false} TextExactly(s: seq<byte>)
    ensures IsText(s) <==> Scan(s) && AllStrict(Split(s))
  {
    hide Strict, IsScalar, EncodeScalar, Scan, Split, AllStrict, Flatten, IsText;
    if IsText(s) {
      TextAccepted(s);
    }
    if Scan(s) {
      var units := Split(s);
      UnitsText(units);
      assert Flatten(units) == s;
    }
  }

  lemma TextAccepted(s: seq<byte>)
    requires IsText(s)
    ensures Scan(s)
  {
    var vs: seq<int> :| Scalars(vs) && EncodeAll(vs) == s;
    AcceptsUtf8(vs);
  }

  /** Every text in UTF-8 is accepted. */
  lemma {:induction false} AcceptsUtf8(vs: seq<int>)
    requires Scalars(vs)
    ensures Scan(EncodeAll(vs))
  {
    forall k | 0 <= k < |vs| ensures IsUnit(Encodings(vs)[k]) { EncodingStrict(vs[k]); }
    EncodeAllFlatten(vs);
    ScanComplete(Encodings(vs));
  }

  /** But not only those: an overlong form of NUL is accepted. */
  lemma OverlongAccepted()
    ensures Scan([0xC0, 0x80]) && !IsText([0xC0, 0x80])
  {
    var s: seq<byte> := [0xC0, 0x80];
    assert IsUnit(s[..2]) && s[2..] == [];
    assert Flatten([s]) == s + Flatten([]);
    UnitsText([s]);
    assert !Strict([s][0]);
  }
}
