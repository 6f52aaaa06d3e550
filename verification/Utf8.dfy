/**
 Texts as their UTF-8 bytes, one character per byte: which byte strings are texts (RFC 3629 section 4),
 and the conversion that makes a text of any bytes by replacing what is malformed with U+FFFD.
 */
module Utf8 {

  const REPLACEMENT: string := [0xEF as char, 0xBF as char, 0xBD as char]

  function At(s: string, i: nat): int {
    if i < |s| then s[i] as int else -1
  }

  predicate IsContinuation(n: int) {
    0x80 <= n <= 0xBF
  }

  // How many bytes a character that begins with this byte takes; zero for a byte that begins none.
  function Width(n: int): nat {
    if 0 <= n <= 0x7F then 1
    else if 0xC2 <= n <= 0xDF then 2
    else if 0xE0 <= n <= 0xEF then 3
    else if 0xF0 <= n <= 0xF4 then 4
    else 0
  }

  // The second bytes that may follow a first one: no overlong form, no surrogate, nothing past U+10FFFF.
  predicate FollowsFirst(first: int, second: int) {
    if first == 0xE0 then 0xA0 <= second <= 0xBF
    else if first == 0xED then 0x80 <= second <= 0x9F
    else if first == 0xF0 then 0x90 <= second <= 0xBF
    else if first == 0xF4 then 0x80 <= second <= 0x8F
    else IsContinuation(second)
  }

  // How many bytes at the front could begin one character, up to the whole of it.
  function Matched(s: string): (n: nat)
    ensures n <= |s| && n <= Width(At(s, 0))
  {
    var width := Width(At(s, 0));
    if s == [] || width == 0 then 0
    else if width == 1 || !FollowsFirst(At(s, 0), At(s, 1)) then 1
    else if width == 2 || !IsContinuation(At(s, 2)) then 2
    else if width == 3 || !IsContinuation(At(s, 3)) then 3
    else 4
  }

  predicate StartsCharacter(s: string) {
    Matched(s) == Width(At(s, 0)) != 0
  }

  predicate WellFormed(s: string)
    decreases |s|
  {
    s == [] || (StartsCharacter(s) && WellFormed(s[Matched(s)..]))
  }

  // Keeps every character; replaces a byte that begins none, or a truncated character, by U+FFFD.
  function Lossy(s: string): string
    decreases |s|
  {
    if s == [] then []
    else if StartsCharacter(s) then s[..Matched(s)] + Lossy(s[Matched(s)..])
    else REPLACEMENT + Lossy(s[if Matched(s) == 0 then 1 else Matched(s)..])
  }

  // A character at the front is matched whatever follows it.
  lemma MatchedIsLocal(c: string, rest: string)
    requires StartsCharacter(c) && Matched(c) == |c|
    ensures StartsCharacter(c + rest) && Matched(c + rest) == |c|
  {
    assert forall i :: 0 <= i < |c| ==> At(c + rest, i) == At(c, i);
  }

  lemma OneCharacterMore(c: string, rest: string)
    requires StartsCharacter(c) && Matched(c) == |c| && WellFormed(rest)
    ensures WellFormed(c + rest)
  {
    MatchedIsLocal(c, rest);
    assert (c + rest)[|c|..] == rest;
  }

  lemma FrontIsOneCharacter(s: string)
    requires StartsCharacter(s)
    ensures StartsCharacter(s[..Matched(s)]) && Matched(s[..Matched(s)]) == Matched(s)
  {
    var c := s[..Matched(s)];
    assert forall i :: 0 <= i < |c| ==> At(c, i) == At(s, i);
  }

  // Whatever the bytes, the conversion yields a text.
  lemma {:induction false} LossyIsWellFormed(s: string)
    ensures WellFormed(Lossy(s))
    decreases |s|
  {
    if s != [] {
      if StartsCharacter(s) {
        LossyIsWellFormed(s[Matched(s)..]);
        FrontIsOneCharacter(s);
        OneCharacterMore(s[..Matched(s)], Lossy(s[Matched(s)..]));
      } else {
        var skip := if Matched(s) == 0 then 1 else Matched(s);
        LossyIsWellFormed(s[skip..]);
        OneCharacterMore(REPLACEMENT, Lossy(s[skip..]));
      }
    }
  }

  lemma {:induction false} LossyKeepsTexts(s: string)
    requires WellFormed(s)
    ensures Lossy(s) == s
    decreases |s|
  {
    if s != [] {
      LossyKeepsTexts(s[Matched(s)..]);
    }
  }

  // The conversion changes nothing exactly on texts.
  lemma LossyIsIdentityIff(s: string)
    ensures Lossy(s) == s <==> WellFormed(s)
  {
    LossyIsWellFormed(s);
    if WellFormed(s) {
      LossyKeepsTexts(s);
    }
  }

  // ---- what a character is ----

  // The code points of RFC 3629: no surrogate, nothing past U+10FFFF.
  predicate IsScalar(cp: nat) {
    cp < 0xD800 || 0xE000 <= cp <= 0x10FFFF
  }

  // The bytes of a code point, by the table of RFC 3629 section 3.
  function Encoded(cp: nat): (bytes: string)
    requires IsScalar(cp)
    ensures 1 <= |bytes| <= 4
  {
    if cp < 0x80 then [cp as char]
    else if cp < 0x800 then [(0xC0 + cp / 64) as char, Tail(cp)]
    else if cp < 0x1_0000 then [(0xE0 + cp / 4096) as char, Tail(cp / 64), Tail(cp)]
    else [(0xF0 + cp / 262_144) as char, Tail(cp / 4096), Tail(cp / 64), Tail(cp)]
  }

  // The byte for the last six bits.
  function Tail(n: nat): (c: char)
    ensures IsContinuation(c as int)
  {
    (0x80 + n % 64) as char
  }

  lemma Sixes(cp: nat)
    ensures cp / 4096 == cp / 64 / 64 && cp / 262_144 == cp / 64 / 64 / 64
  {
  }

  lemma EncodedMatches(cp: nat)
    requires IsScalar(cp)
    ensures StartsCharacter(Encoded(cp)) && Matched(Encoded(cp)) == |Encoded(cp)|
  {
    Sixes(cp);
    var e := Encoded(cp);
    assert At(e, 0) == e[0] as int;
  }

  // One digit in base 64 after the others.
  lemma OneDigit(high: nat, low: nat)
    requires low < 64
    ensures (64 * high + low) / 64 == high && (64 * high + low) % 64 == low
  {
  }

  lemma DecodeTwo(b0: int, b1: int) returns (cp: nat)
    requires Width(b0) == 2 && IsContinuation(b1)
    ensures IsScalar(cp) && Encoded(cp) == [b0 as char, b1 as char]
  {
    cp := 64 * (b0 - 0xC0) + (b1 - 0x80);
    OneDigit(b0 - 0xC0, b1 - 0x80);
  }

  lemma DecodeThree(b0: int, b1: int, b2: int) returns (cp: nat)
    requires Width(b0) == 3 && FollowsFirst(b0, b1) && IsContinuation(b2)
    ensures IsScalar(cp) && Encoded(cp) == [b0 as char, b1 as char, b2 as char]
  {
    var high := 64 * (b0 - 0xE0) + (b1 - 0x80);
    cp := 64 * high + (b2 - 0x80);
    OneDigit(b0 - 0xE0, b1 - 0x80);
    OneDigit(high, b2 - 0x80);
    Sixes(cp);
  }

  lemma DecodeFour(b0: int, b1: int, b2: int, b3: int) returns (cp: nat)
    requires Width(b0) == 4 && FollowsFirst(b0, b1) && IsContinuation(b2) && IsContinuation(b3)
    ensures IsScalar(cp) && Encoded(cp) == [b0 as char, b1 as char, b2 as char, b3 as char]
  {
    var high := 64 * (b0 - 0xF0) + (b1 - 0x80);
    var middle := 64 * high + (b2 - 0x80);
    cp := 64 * middle + (b3 - 0x80);
    OneDigit(b0 - 0xF0, b1 - 0x80);
    OneDigit(high, b2 - 0x80);
    OneDigit(middle, b3 - 0x80);
    Sixes(cp);
  }

  // A second byte that may follow.
  function Follower(first: int): int {
    if first == 0xE0 then 0xA0 else if first == 0xF0 then 0x90 else 0x80
  }

  lemma Completes(s: string, n: nat) returns (cp: nat)
    requires 1 <= n <= Matched(s)
    ensures IsScalar(cp) && s[..n] <= Encoded(cp)
  {
    var b0 := At(s, 0);
    var b1 := if n >= 2 then At(s, 1) else Follower(b0);
    var b2 := if n >= 3 then At(s, 2) else 0x80;
    var b3 := if n >= 4 then At(s, 3) else 0x80;
    if Width(b0) == 1 {
      cp := b0;
    } else if Width(b0) == 2 {
      cp := DecodeTwo(b0, b1);
    } else if Width(b0) == 3 {
      cp := DecodeThree(b0, b1, b2);
    } else {
      cp := DecodeFour(b0, b1, b2, b3);
    }
  }

  // `s` is the beginning of the bytes of some code point.
  ghost predicate BeginsOne(s: string) {
    exists cp :: IsScalar(cp) && s <= Encoded(cp)
  }

  // The front that is matched is the longest that begins a character.
  lemma MatchedIff(s: string, n: nat)
    requires 1 <= n <= |s|
    ensures n <= Matched(s) <==> BeginsOne(s[..n])
  {
    if n <= Matched(s) {
      var cp := Completes(s, n);
    }
    forall cp | IsScalar(cp) && s[..n] <= Encoded(cp)
      ensures n <= Matched(s)
    {
      EncodedMatches(cp);
      assert forall i :: 0 <= i < n ==> At(s, i) == At(Encoded(cp), i);
    }
  }

  // A text begins with a character exactly when it begins with the bytes of a code point.
  lemma CharacterIff(s: string)
    ensures StartsCharacter(s) <==> exists cp :: IsScalar(cp) && Encoded(cp) <= s
    ensures forall cp :: IsScalar(cp) && Encoded(cp) <= s ==> Matched(s) == |Encoded(cp)|
  {
    if StartsCharacter(s) {
      var cp := Completes(s, Matched(s));
      EncodedMatches(cp);
      assert At(Encoded(cp), 0) == At(s, 0);
    }
    forall cp | IsScalar(cp) && Encoded(cp) <= s
      ensures StartsCharacter(s) && Matched(s) == |Encoded(cp)|
    {
      EncodedMatches(cp);
      MatchedIsLocal(Encoded(cp), s[|Encoded(cp)|..]);
      assert s == Encoded(cp) + s[|Encoded(cp)|..];
    }
  }

  function EncodedAll(cps: seq<nat>): string
    requires forall cp :: cp in cps ==> IsScalar(cp)
  {
    if cps == [] then [] else Encoded(cps[0]) + EncodedAll(cps[1..])
  }

  predicate Encodes(s: string, cps: seq<nat>) {
    (forall cp :: cp in cps ==> IsScalar(cp)) && s == EncodedAll(cps)
  }

  lemma EncodesMore(cp: nat, cps: seq<nat>, s: string)
    requires IsScalar(cp) && Encodes(s, cps)
    ensures Encodes(Encoded(cp) + s, [cp] + cps)
  {
    assert ([cp] + cps)[1..] == cps;
  }

  lemma {:induction false} DecodeAll(s: string) returns (cps: seq<nat>)
    requires WellFormed(s)
    ensures Encodes(s, cps)
    decreases |s|
  {
    cps := [];
    if s != [] {
      CharacterIff(s);
      var cp :| IsScalar(cp) && Encoded(cp) <= s;
      var rest := DecodeAll(s[Matched(s)..]);
      cps := [cp] + rest;
      assert s == Encoded(cp) + s[Matched(s)..];
      EncodesMore(cp, rest, s[Matched(s)..]);
    }
  }

  lemma {:induction false} EncodedAllIsWellFormed(cps: seq<nat>)
    requires forall cp :: cp in cps ==> IsScalar(cp)
    ensures WellFormed(EncodedAll(cps))
  {
    if cps != [] {
      EncodedAllIsWellFormed(cps[1..]);
      EncodedMatches(cps[0]);
      OneCharacterMore(Encoded(cps[0]), EncodedAll(cps[1..]));
    }
  }

  // The well-formed byte strings are exactly the encodings of sequences of code points.
  lemma WellFormedIff(s: string)
    ensures WellFormed(s) <==> exists cps :: Encodes(s, cps)
  {
    if WellFormed(s) {
      var cps := DecodeAll(s);
    }
    forall cps | Encodes(s, cps)
      ensures WellFormed(s)
    {
      EncodedAllIsWellFormed(cps);
    }
  }

  // A character at the front is kept.
  lemma LossyKeeps(cp: nat, rest: string)
    requires IsScalar(cp)
    ensures Lossy(Encoded(cp) + rest) == Encoded(cp) + Lossy(rest)
  {
    var s := Encoded(cp) + rest;
    EncodedMatches(cp);
    MatchedIsLocal(Encoded(cp), rest);
    assert s[..|Encoded(cp)|] == Encoded(cp) && s[|Encoded(cp)|..] == rest;
  }

  // Where no character is, one U+FFFD stands for the longest front that could have begun one, or for a
  // single byte that could not.
  lemma LossyReplaces(s: string, n: nat)
    requires 1 <= n <= |s| && forall cp :: IsScalar(cp) ==> !(Encoded(cp) <= s)
    requires (n == 1 || BeginsOne(s[..n])) && (n < |s| ==> !BeginsOne(s[..n + 1]))
    ensures Lossy(s) == [0xEF as char, 0xBF as char, 0xBD as char] + Lossy(s[n..])
  {
    NoCharacter(s);
    LongestFront(s, n);
  }

  lemma NoCharacter(s: string)
    requires forall cp :: IsScalar(cp) ==> !(Encoded(cp) <= s)
    ensures !StartsCharacter(s)
  {
    CharacterIff(s);
  }

  lemma LongestFront(s: string, n: nat)
    requires 1 <= n <= |s| && (n == 1 || BeginsOne(s[..n])) && (n < |s| ==> !BeginsOne(s[..n + 1]))
    ensures n == if Matched(s) == 0 then 1 else Matched(s)
  {
    MatchedIff(s, n);
    if n < |s| {
      MatchedIff(s, n + 1);
    }
  }

  predicate IsAscii(s: string) {
    forall k :: 0 <= k < |s| ==> s[k] as int < 0x80
  }

  lemma {:induction false} AsciiThenText(a: string, b: string)
    requires IsAscii(a) && WellFormed(b)
    ensures WellFormed(a + b)
  {
    if a == [] {
      assert a + b == b;
    } else {
      AsciiThenText(a[1..], b);
      assert (a + b)[1..] == a[1..] + b;
    }
  }
}
