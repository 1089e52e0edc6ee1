/**
 The string validator of the JNI layer (android/app/jni/com_android_bluetooth.h, `isValidUtf`).
 Bytes are numbers; a shift by four is a division by 16 and a mask test is a range test.
 */
module UtfValidator {
  import opened MachineInt

  // ----- the accepted language

  /** A byte of the form 10xx xxxx. */
  predicate IsContinuation(b: Byte) {
    0x80 <= b < 0xC0
  }

  /** The length of the unit a lead byte starts, or zero for a byte that starts none. */
  function UnitLength(lead: Byte): (n: nat)
    ensures n <= 4
  {
    if lead < 0x80 then 1
    else if lead < 0xC0 then 0
    else if lead < 0xE0 then 2
    else if lead < 0xF0 then 3
    else if lead < 0xF8 then 4
    else 0
  }

  /** A lead byte other than NUL, followed by exactly the continuation bytes it calls for. */
  predicate IsUnit(u: seq<Byte>) {
    && u != [] && u[0] != 0
    && |u| == UnitLength(u[0])
    && forall i :: 1 <= i < |u| ==> IsContinuation(u[i])
  }

  /** The ranges are the bit patterns of the source: 0xxx xxxx, 10xx xxxx for a continuation, 110x xxxx,
      1110 xxxx and 1111 0xxx. */
  lemma RangesAreBitPatterns(b: bv8)
    ensures UnitLength(b as int) == 1 <==> b & 0x80 == 0
    ensures IsContinuation(b as int) <==> b & 0xC0 == 0x80
    ensures UnitLength(b as int) == 2 <==> b & 0xE0 == 0xC0
    ensures UnitLength(b as int) == 3 <==> b & 0xF0 == 0xE0
    ensures UnitLength(b as int) == 4 <==> b & 0xF8 == 0xF0
  {
  }

  function Flatten(units: seq<seq<Byte>>): seq<Byte> {
    if units == [] then [] else units[0] + Flatten(units[1..])
  }

  /** A concatenation of units. */
  ghost predicate WellFormed(s: seq<Byte>) {
    exists units :: IsDecomposition(s, units)
  }

  ghost predicate IsDecomposition(s: seq<Byte>, units: seq<seq<Byte>>) {
    (forall i :: 0 <= i < |units| ==> IsUnit(units[i])) && Flatten(units) == s
  }

  lemma WellFormedCons(u: seq<Byte>, s: seq<Byte>)
    requires IsUnit(u) && WellFormed(s)
    ensures WellFormed(u + s)
  {
    var units :| IsDecomposition(s, units);
    assert ([u] + units)[1..] == units;
    assert IsDecomposition(u + s, [u] + units);
  }

  lemma WellFormedEmpty()
    ensures WellFormed([])
  {
    assert IsDecomposition([], []);
  }

  /** A well-formed string that is not empty starts with a unit, and the rest is well formed. */
  lemma WellFormedHead(s: seq<Byte>)
    requires s != [] && WellFormed(s)
    ensures var n := UnitLength(s[0]);
            && 0 < n <= |s| && IsUnit(s[..n]) && WellFormed(s[n..])
            && forall i :: 1 <= i < n ==> IsContinuation(s[i])
  {
    var units :| IsDecomposition(s, units);
    var u, rest := units[0], units[1..];
    assert s == u + Flatten(rest);
    assert s[0] == u[0];
    assert s[..|u|] == u;
    assert s[|u|..] == Flatten(rest);
    assert IsDecomposition(Flatten(rest), rest);
  }

  // ----- the validator

  /** The buffer is a string and its terminating NUL, and nothing after it: an index in range is a
      read at or before the NUL. */
  predicate Terminated(buffer: seq<Byte>, n: nat) {
    |buffer| == n + 1 && buffer[n] == 0 && forall i :: 0 <= i < n ==> buffer[i] != 0
  }

  /** The unit at the cursor has been read completely. */
  lemma UnitRead(buffer: seq<Byte>, n: nat, start: nat, length: nat)
    requires Terminated(buffer, n) && start < n && length == UnitLength(buffer[start])
    requires 0 < length && start + length <= n
    requires forall i :: start < i < start + length ==> IsContinuation(buffer[i])
    ensures WellFormed(buffer[start..n]) <==> WellFormed(buffer[start + length..n])
  {
    var s := buffer[start..n];
    assert s[..length] + s[length..] == s;
    assert s[length..] == buffer[start + length..n];
    assert IsUnit(s[..length]);
    if WellFormed(s) {
      WellFormedHead(s);
    }
    if WellFormed(s[length..]) {
      WellFormedCons(s[..length], s[length..]);
    }
  }

  /** A byte of the unit at the cursor, possibly the NUL, is not a continuation byte. */
  lemma UnitBroken(buffer: seq<Byte>, n: nat, start: nat, i: nat)
    requires Terminated(buffer, n) && start < i <= n && i < start + UnitLength(buffer[start])
    requires !IsContinuation(buffer[i])
    ensures !WellFormed(buffer[start..n])
  {
    var s := buffer[start..n];
    assert i < n ==> s[i - start] == buffer[i];
    if WellFormed(s) {
      WellFormedHead(s);
    }
  }

  lemma NoUnitAt(buffer: seq<Byte>, n: nat, start: nat)
    requires Terminated(buffer, n) && start < n && UnitLength(buffer[start]) == 0
    ensures !WellFormed(buffer[start..n])
  {
    if WellFormed(buffer[start..n]) {
      WellFormedHead(buffer[start..n]);
    }
  }

  /** `isValidUtf` on a NUL-terminated string of length `n`: it terminates, reads no byte after the
      NUL, and accepts exactly the concatenations of units. */
  method IsValidUtf(buffer: seq<Byte>, ghost n: nat) returns (valid: bool)
    requires Terminated(buffer, n)
    ensures valid <==> WellFormed(buffer[..n])
  {
    var bytes := 0;
    assert buffer[0..n] == buffer[..n];
    while buffer[bytes] != 0
      invariant 0 <= bytes <= n
      invariant WellFormed(buffer[..n]) <==> WellFormed(buffer[bytes..n])
      decreases n - bytes
    {
      ghost var start := bytes;
      var utf8 := bytes;
      bytes := bytes + 1;
      var high := buffer[utf8] / 16;
      if high < 0x8 {
        UnitRead(buffer, n, start, 1);
      } else if high < 0xC {
        NoUnitAt(buffer, n, start);
        return false;
      } else {
        ghost var length := UnitLength(buffer[start]);
        if high == 0xF {
          if buffer[utf8] / 8 % 2 == 0 {
            utf8 := bytes;
            bytes := bytes + 1;
            if !IsContinuation(buffer[utf8]) {
              UnitBroken(buffer, n, start, utf8);
              return false;
            }
          } else {
            NoUnitAt(buffer, n, start);
            return false;
          }
        }
        if high == 0xF || high == 0xE {
          utf8 := bytes;
          bytes := bytes + 1;
          if !IsContinuation(buffer[utf8]) {
            UnitBroken(buffer, n, start, utf8);
            return false;
          }
        }
        utf8 := bytes;
        bytes := bytes + 1;
        if !IsContinuation(buffer[utf8]) {
          UnitBroken(buffer, n, start, utf8);
          return false;
        }
        UnitRead(buffer, n, start, length);
      }
    }
    assert buffer[n..n] == [];
    WellFormedEmpty();
    return true;
  }

  // ----- concatenation

  lemma {:induction false} ConcatAccepted(a: seq<Byte>, b: seq<Byte>)
    requires WellFormed(a) && WellFormed(b)
    ensures WellFormed(a + b)
    decreases |a|
  {
    if a == [] {
      assert a + b == b;
    } else {
      WellFormedHead(a);
      var n := UnitLength(a[0]);
      ConcatAccepted(a[n..], b);
      WellFormedCons(a[..n], a[n..] + b);
      assert a[..n] + (a[n..] + b) == a + b;
    }
  }

  /** The first unit of a + b lies within a: b starts a unit of its own, so it does not begin with a
      continuation byte. */
  lemma FirstUnitWithin(a: seq<Byte>, b: seq<Byte>)
    requires a != [] && WellFormed(b) && WellFormed(a + b)
    ensures var n := UnitLength(a[0]);
            0 < n <= |a| && IsUnit((a + b)[..n]) && WellFormed((a + b)[n..])
  {
    WellFormedHead(a + b);
    if b != [] {
      WellFormedHead(b);
      assert (a + b)[|a|] == b[0];
    }
  }

  lemma {:induction false} PrefixAccepted(a: seq<Byte>, b: seq<Byte>)
    requires WellFormed(b) && WellFormed(a + b)
    ensures WellFormed(a)
    decreases |a|
  {
    hide IsUnit, WellFormed;
    if a == [] {
      WellFormedEmpty();
    } else {
      FirstUnitWithin(a, b);
      var n := UnitLength(a[0]);
      assert (a + b)[n..] == a[n..] + b;
      PrefixAccepted(a[n..], b);
      assert (a + b)[..n] == a[..n];
      WellFormedCons(a[..n], a[n..]);
      assert a[..n] + a[n..] == a;
    }
  }

  /** If b is accepted, then a followed by b is accepted exactly when a is. */
  lemma ConcatAcceptedIff(a: seq<Byte>, b: seq<Byte>)
    requires WellFormed(b)
    ensures WellFormed(a + b) <==> WellFormed(a)
  {
    if WellFormed(a) {
      ConcatAccepted(a, b);
    }
    if WellFormed(a + b) {
      PrefixAccepted(a, b);
    }
  }

  // ----- UTF-8

  /** A Unicode scalar value other than NUL. */
  predicate IsScalar(c: int) {
    0 < c < 0xD800 || 0xE000 <= c <= 0x10FFFF
  }

  /** The encoding of a scalar value, sections 3 and 4 of RFC 3629. */
  function Encode(c: int): seq<Byte>
    requires IsScalar(c)
  {
    if c < 0x80 then [c]
    else if c < 0x800 then [0xC0 + c / 64, 0x80 + c % 64]
    else if c < 0x10000 then [0xE0 + c / 4096, 0x80 + c / 64 % 64, 0x80 + c % 64]
    else [0xF0 + c / 262144, 0x80 + c / 4096 % 64, 0x80 + c / 64 % 64, 0x80 + c % 64]
  }

  function EncodeAll(cs: seq<int>): seq<Byte>
    requires forall i :: 0 <= i < |cs| ==> IsScalar(cs[i])
  {
    if cs == [] then [] else Encode(cs[0]) + EncodeAll(cs[1..])
  }

  /** Every encoded string of scalar values without NUL is accepted. */
  lemma {:induction false} EncodedIsAccepted(cs: seq<int>)
    requires forall i :: 0 <= i < |cs| ==> IsScalar(cs[i])
    ensures WellFormed(EncodeAll(cs))
  {
    if cs == [] {
      WellFormedEmpty();
    } else {
      EncodedIsShortest(cs[0]);
      EncodedIsAccepted(cs[1..]);
      WellFormedCons(Encode(cs[0]), EncodeAll(cs[1..]));
    }
  }

  lemma WellFormedUnit(u: seq<Byte>)
    requires IsUnit(u)
    ensures WellFormed(u)
  {
    WellFormedEmpty();
    WellFormedCons(u, []);
    assert u + [] == u;
  }

  /** The table of section 4 of RFC 3629, on a unit: no overlong form, no surrogate, and nothing
      beyond the last scalar value. */
  predicate IsShortest(u: seq<Byte>)
    requires IsUnit(u)
  {
    && u[0] != 0xC0 && u[0] != 0xC1 && u[0] <= 0xF4
    && (u[0] == 0xE0 ==> u[1] >= 0xA0)
    && (u[0] == 0xED ==> u[1] < 0xA0)
    && (u[0] == 0xF0 ==> u[1] >= 0x90)
    && (u[0] == 0xF4 ==> u[1] < 0x90)
  }

  /** The six bits of a continuation byte. */
  function Low(b: Byte): int {
    b as int - 0x80
  }

  /** The number a unit carries in its bits. */
  function Carried(u: seq<Byte>): int
    requires IsUnit(u)
  {
    var lead: int := u[0] as int;
    if |u| == 1 then lead
    else if |u| == 2 then (lead - 0xC0) * 64 + Low(u[1])
    else if |u| == 3 then (lead - 0xE0) * 4096 + Low(u[1]) * 64 + Low(u[2])
    else (lead - 0xF0) * 262144 + Low(u[1]) * 4096 + Low(u[2]) * 64 + Low(u[3])
  }

  /** A number put together from six-bit digits falls apart into them again. */
  lemma Digits(a: nat, b: int, c: int, d: int)
    requires 0 <= b < 64 && 0 <= c < 64 && 0 <= d < 64
    ensures var n := a * 262144 + b * 4096 + c * 64 + d;
            n / 262144 == a && n / 4096 == a * 64 + b && n / 64 == a * 4096 + b * 64 + c
            && n / 4096 % 64 == b && n / 64 % 64 == c && n % 64 == d
  {
  }

  lemma EncodeThree(b: int, c: int, d: int)
    requires 0 <= b < 16 && 0 <= c < 64 && 0 <= d < 64 && (b == 0 ==> c >= 32) && (b == 13 ==> c < 32)
    ensures var n := b * 4096 + c * 64 + d; IsScalar(n) && Encode(n) == [0xE0 + b, 0x80 + c, 0x80 + d]
  {
    Digits(0, b, c, d);
  }

  lemma EncodeFour(a: int, b: int, c: int, d: int)
    requires 0 <= a <= 4 && 0 <= b < 64 && 0 <= c < 64 && 0 <= d < 64 && (a == 0 ==> b >= 16) && (a == 4 ==> b < 16)
    ensures var n := a * 262144 + b * 4096 + c * 64 + d;
            IsScalar(n) && Encode(n) == [0xF0 + a, 0x80 + b, 0x80 + c, 0x80 + d]
  {
    Digits(a, b, c, d);
  }

  /** A unit in the table is the encoding of the scalar value it carries. */
  lemma ShortestIsEncoded(u: seq<Byte>)
    requires IsUnit(u) && IsShortest(u)
    ensures IsScalar(Carried(u)) && Encode(Carried(u)) == u
  {
    var lead: int := u[0] as int;
    if |u| == 3 {
      hide Encode;
      EncodeThree(lead - 0xE0, Low(u[1]), Low(u[2]));
    } else if |u| == 4 {
      hide Encode;
      EncodeFour(lead - 0xF0, Low(u[1]), Low(u[2]), Low(u[3]));
    }
  }

  /** An encoding is in the table. */
  lemma EncodedIsShortest(c: int)
    requires IsScalar(c)
    ensures IsUnit(Encode(c)) && IsShortest(Encode(c))
  {
  }

  predicate AllScalar(cs: seq<int>) {
    forall i :: 0 <= i < |cs| ==> IsScalar(cs[i])
  }

  ghost predicate IsEncoding(s: seq<Byte>, cs: seq<int>) {
    AllScalar(cs) && EncodeAll(cs) == s
  }

  lemma {:induction false} ShortestUnitsEncode(units: seq<seq<Byte>>) returns (cs: seq<int>)
    requires forall i :: 0 <= i < |units| ==> IsUnit(units[i]) && IsShortest(units[i])
    ensures IsEncoding(Flatten(units), cs)
  {
    if units == [] {
      cs := [];
    } else {
      var rest := ShortestUnitsEncode(units[1..]);
      ShortestIsEncoded(units[0]);
      cs := [Carried(units[0])] + rest;
      assert cs[1..] == rest;
    }
  }

  /** Two strings that start with a unit and are equal start with the same unit. */
  lemma SameFirstUnit(u: seq<Byte>, v: seq<Byte>, s: seq<Byte>, t: seq<Byte>)
    requires IsUnit(u) && IsUnit(v) && u + s == v + t
    ensures u == v && s == t
  {
    assert u[0] == (u + s)[0] == v[0];
    assert u == (u + s)[..|u|] && v == (v + t)[..|v|];
    assert s == (u + s)[|u|..] && t == (v + t)[|v|..];
  }

  lemma {:induction false} EncodedUnitsAreShortest(units: seq<seq<Byte>>, cs: seq<int>)
    requires forall i :: 0 <= i < |units| ==> IsUnit(units[i])
    requires IsEncoding(Flatten(units), cs)
    ensures forall i :: 0 <= i < |units| ==> IsShortest(units[i])
  {
    if units != [] {
      assert Flatten(units) != [];
      EncodedIsShortest(cs[0]);
      SameFirstUnit(units[0], Encode(cs[0]), Flatten(units[1..]), EncodeAll(cs[1..]));
      EncodedUnitsAreShortest(units[1..], cs[1..]);
      assert forall i :: 0 < i < |units| ==> units[i] == units[1..][i - 1];
    }
  }

  /** An accepted string is UTF-8, the encoding of some scalar values, exactly when every unit of it
      is in the table of RFC 3629. */
  lemma AcceptedIsUtf8Iff(s: seq<Byte>, units: seq<seq<Byte>>)
    requires IsDecomposition(s, units)
    ensures (exists cs :: IsEncoding(s, cs)) <==> forall i :: 0 <= i < |units| ==> IsShortest(units[i])
  {
    if forall i :: 0 <= i < |units| ==> IsShortest(units[i]) {
      var cs := ShortestUnitsEncode(units);
      assert IsEncoding(s, cs);
    }
    if cs :| IsEncoding(s, cs) {
      EncodedUnitsAreShortest(units, cs);
    }
  }

  /** A single unit outside the table is accepted although it encodes nothing. */
  lemma AcceptedNotEncoded(u: seq<Byte>)
    requires IsUnit(u) && !IsShortest(u)
    ensures WellFormed(u) && !exists cs :: IsEncoding(u, cs)
  {
    WellFormedUnit(u);
    assert Flatten([u]) == u + Flatten([u][1..]) == u;
    assert IsDecomposition(u, [u]);
    AcceptedIsUtf8Iff(u, [u]);
    assert !IsShortest([u][0]);
  }

  /** So the converse fails: an overlong form, a surrogate and a lead byte beyond the last scalar value
      are accepted, and are the encoding of no sequence of scalar values. */
  lemma AcceptsMoreThanUtf8()
    ensures WellFormed([0xC1, 0xBF]) && !exists cs :: IsEncoding([0xC1, 0xBF], cs)
    ensures WellFormed([0xED, 0xA0, 0x80]) && !exists cs :: IsEncoding([0xED, 0xA0, 0x80], cs)
    ensures WellFormed([0xF7, 0xBF, 0xBF, 0xBF]) && !exists cs :: IsEncoding([0xF7, 0xBF, 0xBF, 0xBF], cs)
  {
    AcceptedNotEncoded([0xC1, 0xBF]);
    AcceptedNotEncoded([0xED, 0xA0, 0x80]);
    AcceptedNotEncoded([0xF7, 0xBF, 0xBF, 0xBF]);
  }
}
