/**
 The routing handle's text: 128 bits as 22 characters of unpadded base64url (RFC 4648 section 5).
 */
module HandleCodec {
  import opened Prelude

  const HANDLE_BYTES: nat := 16
  const HANDLE_LEN: nat := 22

  type Byte = n: nat | n < 256
  type Sextet = n: nat | n < 64

  type RoutingHandle = b: seq<Byte> | |b| == HANDLE_BYTES witness seq(16, _ => 0)

  datatype HandleError = WrongLength | Undecodable

  datatype HandleParse = ParsedHandle(handle: RoutingHandle) | BadHandle(error: HandleError)

  // ---- the alphabet ----

  function Symbol(v: Sextet): char {
    if v < 26 then ('A' as int + v) as char
    else if v < 52 then ('a' as int + (v - 26)) as char
    else if v < 62 then ('0' as int + (v - 52)) as char
    else if v == 62 then '-' else '_'
  }

  function ValueOf(c: char): Option<Sextet> {
    if 'A' <= c <= 'Z' then Some(c as int - 'A' as int)
    else if 'a' <= c <= 'z' then Some(c as int - 'a' as int + 26)
    else if '0' <= c <= '9' then Some(c as int - '0' as int + 52)
    else if c == '-' then Some(62)
    else if c == '_' then Some(63)
    else None
  }

  lemma SymbolIff(c: char, v: Sextet)
    ensures ValueOf(c) == Some(v) <==> c == Symbol(v)
  {
  }

  function Symbols(values: seq<Sextet>): (t: string)
    ensures |t| == |values|
  {
    if values == [] then [] else [Symbol(values[0])] + Symbols(values[1..])
  }

  function ValuesOf(t: string): (values: Option<seq<Sextet>>)
    ensures values.Some? ==> |values.value| == |t|
  {
    if t == [] then Some([])
    else
      var first, rest := ValueOf(t[0]), ValuesOf(t[1..]);
      if first == None || rest == None then None else Some([first.value] + rest.value)
  }

  lemma {:induction false} SymbolsIff(t: string, values: seq<Sextet>)
    ensures ValuesOf(t) == Some(values) <==> t == Symbols(values)
  {
    if t != [] && values != [] {
      SymbolsIff(t[1..], values[1..]);
      SymbolIff(t[0], values[0]);
      assert t == [t[0]] + t[1..] && values == [values[0]] + values[1..];
    }
  }

  // ---- regrouping bits: three bytes are four sextets ----

  // A high part times a small base, plus a low part.
  lemma HighAndLow(n: nat, high: nat, low: nat, base: nat)
    requires base == 4 || base == 16 || base == 64
    requires low < base
    ensures n == high * base + low <==> high == n / base && low == n % base
  {
  }

  lemma DigitsIff(p: Sextet, q: Sextet, r: Sextet, s: Sextet, a: Byte, b: Byte, c: Byte)
    ensures (a == p * 4 + q / 16 && b == q % 16 * 16 + r / 4 && c == r % 4 * 64 + s)
       <==> (p == a / 4 && q == a % 4 * 16 + b / 16 && r == b % 16 * 4 + c / 64 && s == c % 64)
  {
    HighAndLow(a, p, q / 16, 4);
    HighAndLow(b, q % 16, r / 4, 16);
    HighAndLow(c, r % 4, s, 64);
    HighAndLow(q, a % 4, b / 16, 16);
    HighAndLow(r, b % 16, c / 64, 4);
  }

  function GroupOf(a: Byte, b: Byte, c: Byte): (v: seq<Sextet>)
    ensures |v| == 4
  {
    [a / 4, a % 4 * 16 + b / 16, b % 16 * 4 + c / 64, c % 64]
  }

  function BytesOf(v: seq<Sextet>): (bytes: seq<Byte>)
    requires |v| == 4
    ensures |bytes| == 3
  {
    var p: int, q: int, r: int, s: int := v[0], v[1], v[2], v[3];
    var a: Byte, b: Byte, c: Byte := p * 4 + q / 16, q % 16 * 16 + r / 4, r % 4 * 64 + s;
    [a, b, c]
  }

  lemma GroupIff(v: seq<Sextet>, bytes: seq<Byte>)
    requires |v| == 4 && |bytes| == 3
    ensures BytesOf(v) == bytes <==> v == GroupOf(bytes[0], bytes[1], bytes[2])
  {
    DigitsIff(v[0], v[1], v[2], v[3], bytes[0], bytes[1], bytes[2]);
  }

  // The last byte stands alone: its second sextet has four bits to spare, which must be zero.
  function ToSextets(bytes: seq<Byte>, groups: nat): (values: seq<Sextet>)
    requires |bytes| == 3 * groups + 1
    ensures |values| == 4 * groups + 2
  {
    if groups == 0 then [bytes[0] / 4, bytes[0] % 4 * 16]
    else GroupOf(bytes[0], bytes[1], bytes[2]) + ToSextets(bytes[3..], groups - 1)
  }

  function ToBytes(values: seq<Sextet>, groups: nat): (bytes: Option<seq<Byte>>)
    requires |values| == 4 * groups + 2
    ensures bytes.Some? ==> |bytes.value| == 3 * groups + 1
  {
    if groups == 0 then
      var p: int, q: int := values[0], values[1];
      var a: Byte := p * 4 + q / 16;
      if q % 16 != 0 then None else Some([a])
    else
      var rest := ToBytes(values[4..], groups - 1);
      if rest == None then None else Some(BytesOf(values[..4]) + rest.value)
  }

  lemma {:induction false} BytesOfSextets(bytes: seq<Byte>, groups: nat)
    requires |bytes| == 3 * groups + 1
    ensures ToBytes(ToSextets(bytes, groups), groups) == Some(bytes)
  {
    if groups == 0 {
      assert bytes == [bytes[0]];
    } else {
      var group := GroupOf(bytes[0], bytes[1], bytes[2]);
      BytesOfSextets(bytes[3..], groups - 1);
      GroupIff(group, bytes[..3]);
      var values := ToSextets(bytes, groups);
      assert values[..4] == group && values[4..] == ToSextets(bytes[3..], groups - 1);
      assert bytes == bytes[..3] + bytes[3..];
    }
  }

  lemma {:induction false} SextetsOfBytes(values: seq<Sextet>, groups: nat)
    requires |values| == 4 * groups + 2 && ToBytes(values, groups).Some?
    ensures ToSextets(ToBytes(values, groups).value, groups) == values
  {
    if groups == 0 {
      assert values == [values[0], values[1]];
    } else {
      var bytes, rest := ToBytes(values, groups).value, ToBytes(values[4..], groups - 1).value;
      SextetsOfBytes(values[4..], groups - 1);
      GroupIff(values[..4], BytesOf(values[..4]));
      assert bytes[..3] == BytesOf(values[..4]) && bytes[3..] == rest;
      assert values == values[..4] + values[4..];
    }
  }

  // ---- the handle ----

  function Encode(h: RoutingHandle): (t: string)
    ensures |t| == HANDLE_LEN
  {
    Symbols(ToSextets(h, 5))
  }

  function Parse(t: string): HandleParse {
    if |t| != HANDLE_LEN then BadHandle(WrongLength)
    else
      var values := ValuesOf(t);
      var bytes := if values == None then None else ToBytes(values.value, 5);
      if bytes == None then BadHandle(Undecodable) else ParsedHandle(bytes.value)
  }

  // Every handle has exactly one text, and every accepted text is the text of its handle.
  lemma ParseIff(t: string, h: RoutingHandle)
    ensures Parse(t) == ParsedHandle(h) <==> t == Encode(h)
  {
    BytesOfSextets(h, 5);
    SymbolsIff(t, ToSextets(h, 5));
    if Parse(t).ParsedHandle? {
      SextetsOfBytes(ValuesOf(t).value, 5);
    }
  }

  // A text is refused for its length, or as the text of no handle.
  lemma RejectsIff(t: string)
    ensures Parse(t) == BadHandle(WrongLength) <==> |t| != 22
    ensures Parse(t) == BadHandle(Undecodable) <==> |t| == 22 && forall h :: Encode(h) != t
  {
    forall h
      ensures Encode(h) == t <==> Parse(t) == ParsedHandle(h)
    {
      ParseIff(t, h);
    }
  }

  // Table 2 of RFC 4648.
  const UPPER: string := "ABCDEFGHIJKLMNOPQRSTUVWXYZ"
  const LOWER: string := "abcdefghijklmnopqrstuvwxyz"
  const REST: string := "0123456789-_"
  const ALPHABET: string := UPPER + LOWER + REST

  lemma UpperAt(k: nat)
    requires k < 26
    ensures UPPER[k] as int == 'A' as int + k
  {
  }

  lemma LowerAt(k: nat)
    requires k < 26
    ensures LOWER[k] as int == 'a' as int + k
  {
  }

  lemma SymbolIs(v: Sextet)
    ensures Symbol(v) == ALPHABET[v]
  {
    if v < 26 {
      UpperAt(v);
      assert ALPHABET[v] == UPPER[v];
    } else if v < 52 {
      LowerAt(v - 26);
      assert ALPHABET[v] == LOWER[v - 26];
    } else {
      assert ALPHABET[v] == REST[v - 52];
    }
  }

  lemma {:induction false} SymbolsAre(values: seq<Sextet>, j: nat)
    requires j < |values|
    ensures Symbols(values)[j] == ALPHABET[values[j]]
  {
    SymbolIs(values[0]);
    if j > 0 {
      SymbolsAre(values[1..], j - 1);
    }
  }

  // Four digits in base 64 from `i` on, as one number.
  function Four(v: seq<Sextet>, i: nat): int
    requires i + 4 <= |v|
  {
    var p: int, q: int, r: int, s: int := v[i], v[i + 1], v[i + 2], v[i + 3];
    64 * (64 * (64 * p + q) + r) + s
  }

  // Three bytes from `i` on, as one number.
  function Three(bytes: seq<Byte>, i: nat): int
    requires i + 3 <= |bytes|
  {
    var a: int, b: int, c: int := bytes[i], bytes[i + 1], bytes[i + 2];
    256 * (256 * a + b) + c
  }

  lemma GroupIsTheNumber(a: Byte, b: Byte, c: Byte)
    ensures Four(GroupOf(a, b, c), 0) == Three([a, b, c], 0)
  {
    assert a == 4 * (a / 4) + a % 4 && b == 16 * (b / 16) + b % 16 && c == 64 * (c / 64) + c % 64;
  }

  lemma {:induction false} GroupsAreNumbers(bytes: seq<Byte>, groups: nat, i: nat)
    requires |bytes| == 3 * groups + 1 && i <= groups
    ensures var v := ToSextets(bytes, groups);
      if i < groups then Four(v, 4 * i) == Three(bytes, 3 * i)
      else 64 * v[4 * groups] as int + v[4 * groups + 1] as int == 16 * bytes[3 * groups] as int
  {
    if groups > 0 {
      var group, rest := GroupOf(bytes[0], bytes[1], bytes[2]), ToSextets(bytes[3..], groups - 1);
      if i == 0 {
        GroupIsTheNumber(bytes[0], bytes[1], bytes[2]);
        FourAtTheFront(group, rest);
      } else {
        GroupsAreNumbers(bytes[3..], groups - 1, i - 1);
        if i < groups {
          FourFurtherOn(group, rest, 4 * (i - 1));
          ThreeFurtherOn(bytes, 3 * (i - 1));
        } else {
          LastFurtherOn(group, rest, bytes, groups);
        }
      }
    }
  }

  lemma FourAtTheFront(group: seq<Sextet>, rest: seq<Sextet>)
    requires |group| == 4
    ensures Four(group + rest, 0) == Four(group, 0)
  {
  }

  lemma FourFurtherOn(group: seq<Sextet>, rest: seq<Sextet>, i: nat)
    requires |group| == 4 && i + 4 <= |rest|
    ensures Four(group + rest, i + 4) == Four(rest, i)
  {
  }

  lemma ThreeFurtherOn(bytes: seq<Byte>, i: nat)
    requires i + 6 <= |bytes|
    ensures Three(bytes, i + 3) == Three(bytes[3..], i)
  {
  }

  lemma LastFurtherOn(group: seq<Sextet>, rest: seq<Sextet>, bytes: seq<Byte>, groups: nat)
    requires groups > 0 && |group| == 4 && |rest| == 4 * groups - 2 && |bytes| == 3 * groups + 1
    ensures (group + rest)[4 * groups] == rest[4 * (groups - 1)]
    ensures (group + rest)[4 * groups + 1] == rest[4 * (groups - 1) + 1]
    ensures bytes[3 * groups] == bytes[3..][3 * (groups - 1)]
  {
  }

  // The text spells the handle's bits in base 64, most significant first, four characters for three bytes
  // and two for the last one.
  lemma TextSpellsTheBits(h: RoutingHandle) returns (v: seq<Sextet>)
    ensures |v| == |Encode(h)| == 22
    ensures forall j :: 0 <= j < 22 ==> Encode(h)[j] == ALPHABET[v[j]]
    ensures forall i :: 0 <= i < 5 ==> Four(v, 4 * i) == Three(h, 3 * i)
    ensures 64 * v[20] as int + v[21] as int == 16 * h[15] as int
  {
    v := ToSextets(h, 5);
    forall j | 0 <= j < 22
      ensures Encode(h)[j] == ALPHABET[v[j]]
    {
      SymbolsAre(v, j);
    }
    forall i | 0 <= i < 5
      ensures Four(v, 4 * i) == Three(h, 3 * i)
    {
      GroupsAreNumbers(h, 5, i);
    }
    GroupsAreNumbers(h, 5, 5);
  }

  lemma {:induction false} AlphabetOnly(values: seq<Sextet>)
    ensures forall c :: c in Symbols(values) ==> ValueOf(c).Some?
  {
    if values != [] {
      AlphabetOnly(values[1..]);
      SymbolIff(Symbol(values[0]), values[0]);
    }
  }
}
