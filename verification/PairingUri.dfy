/**
 The pairing URI: `herdr-remote://pair` with four query fields, the relay origin percent-encoded
 (RFC 3986 sections 2.1 and 2.3). A text is its UTF-8 bytes, one character per byte.
 */
module PairingUri {
  import opened Prelude
  import opened Text
  import opened Utf8
  import HandleCodec

  const SCHEME: string := "herdr-remote"
  const MAX_LEN: nat := 512
  const PREFIX: string := "herdr-remote://pair?"

  datatype Uri = Uri(relayOrigin: string, handle: HandleCodec.RoutingHandle, phrase: string)

  datatype UriError =
    | Scheme | Path | Version | FieldMissing | FieldRepeated | TooLong | RelayOriginInvalid
    | HandleMalformed(cause: HandleCodec.HandleError)

  // `Panic` is the call that does not return: a slice of the text fell inside a character.
  datatype Result<+T> = Ok(value: T) | Err(error: UriError) | Panic

  predicate IsBytes(s: string) {
    forall k :: 0 <= k < |s| ==> s[k] as int < 256
  }

  // ---- percent encoding ----

  predicate Unreserved(c: char) {
    'A' <= c <= 'Z' || 'a' <= c <= 'z' || '0' <= c <= '9' || c == '-' || c == '.' || c == '_' || c == '~'
  }

  function HexDigit(n: nat): char
    requires n < 16
  {
    if n < 10 then ('0' as int + n) as char else ('A' as int + (n - 10)) as char
  }

  function HexValue(c: char): (n: Option<nat>)
    ensures n.Some? ==> n.value < 16
  {
    if '0' <= c <= '9' then Some(c as int - '0' as int)
    else if 'A' <= c <= 'F' then Some(c as int - 'A' as int + 10)
    else if 'a' <= c <= 'f' then Some(c as int - 'a' as int + 10)
    else None
  }

  // Reading two characters as a byte in base 16: a leading plus sign is allowed.
  function FromRadix16(a: char, b: char): (n: Option<nat>)
    ensures n.Some? ==> n.value < 256
  {
    var high, low := if a == '+' then Some(0) else HexValue(a), HexValue(b);
    if high == None || low == None then None else Some(high.value * 16 + low.value)
  }

  function EncodedByte(c: char): string
    requires c as int < 256
  {
    if Unreserved(c) then [c] else ['%', HexDigit(c as int / 16), HexDigit(c as int % 16)]
  }

  function PercentEncoded(s: string): string
    requires IsBytes(s)
  {
    if s == [] then [] else EncodedByte(s[0]) + PercentEncoded(s[1..])
  }

  // Slicing two characters out of a text after a percent sign needs the slice to end between characters.
  predicate CutsCharacter(s: string) {
    |s| > 3 && s[0] == '%' && IsContinuation(s[3] as int)
  }

  predicate StartsEscape(s: string) {
    |s| >= 3 && s[0] == '%' && FromRadix16(s[1], s[2]).Some?
  }

  function Prepended(c: char, rest: Option<string>): Option<string> {
    if rest == None then None else Some([c] + rest.value)
  }

  // The bytes a text stands for once its escapes are read; None is the panic.
  function Unescaped(s: string): Option<string> {
    if s == [] then Some([])
    else if CutsCharacter(s) then None
    else if StartsEscape(s) then Prepended(FromRadix16(s[1], s[2]).value as char, Unescaped(s[3..]))
    else Prepended(s[0], Unescaped(s[1..]))
  }

  // The text made of those bytes.
  function PercentDecoded(s: string): Option<string> {
    var bytes := Unescaped(s);
    if bytes == None then None else Some(Lossy(bytes.value))
  }

  method PercentEncode(input: string) returns (out: string)
    requires IsBytes(input)
    ensures out == PercentEncoded(input)
  {
    out := [];
    for i := 0 to |input|
      invariant out + PercentEncoded(input[i..]) == PercentEncoded(input)
    {
      assert input[i..][1..] == input[i + 1..];
      var piece := EncodedByte(input[i]);
      assert out + (piece + PercentEncoded(input[i + 1..])) == (out + piece) + PercentEncoded(input[i + 1..]);
      out := out + piece;
    }
  }

  // `rest` read after `done` makes `whole`: nothing at all once a slice has failed.
  predicate Continues(done: string, rest: Option<string>, whole: Option<string>) {
    whole == if rest == None then None else Some(done + rest.value)
  }

  lemma ContinuesPast(done: string, c: char, rest: Option<string>, whole: Option<string>)
    requires Continues(done, Prepended(c, rest), whole)
    ensures Continues(done + [c], rest, whole)
  {
    if rest.Some? {
      assert done + ([c] + rest.value) == (done + [c]) + rest.value;
    }
  }

  lemma UnescapedFrom(s: string, i: nat)
    requires i < |s|
    ensures Unescaped(s[i..])
         == if i + 3 < |s| && s[i] == '%' && IsContinuation(s[i + 3] as int) then None
            else if i + 3 <= |s| && s[i] == '%' && FromRadix16(s[i + 1], s[i + 2]).Some?
            then Prepended(FromRadix16(s[i + 1], s[i + 2]).value as char, Unescaped(s[i + 3..]))
            else Prepended(s[i], Unescaped(s[i + 1..]))
  {
    assert s[i..][1..] == s[i + 1..];
    assert i + 3 <= |s| ==> s[i..][3..] == s[i + 3..];
  }

  method PercentDecode(input: string) returns (text: Option<string>)
    ensures text == PercentDecoded(input)
  {
    var out := [];
    var i := 0;
    assert Unescaped(input).Some? ==> out + Unescaped(input).value == Unescaped(input).value;
    assert input[0..] == input;
    while i < |input|
      invariant i <= |input|
      invariant Continues(out, Unescaped(input[i..]), Unescaped(input))
    {
      UnescapedFrom(input, i);
      if input[i] == '%' && i + 3 <= |input| {
        if i + 3 < |input| && IsContinuation(input[i + 3] as int) {
          return None;
        }
        var value := FromRadix16(input[i + 1], input[i + 2]);
        if value.Some? {
          ContinuesPast(out, value.value as char, Unescaped(input[i + 3..]), Unescaped(input));
          out := out + [value.value as char];
          i := i + 3;
          continue;
        }
      }
      ContinuesPast(out, input[i], Unescaped(input[i + 1..]), Unescaped(input));
      out := out + [input[i]];
      i := i + 1;
    }
    assert out + [] == out;
    text := Some(Lossy(out));
  }

  // Decoding panics exactly on a percent sign with a continuation byte three places on, so never on
  // ASCII text.
  lemma {:induction false} PanicsIff(s: string)
    ensures PercentDecoded(s) == None <==>
      exists k :: 0 <= k && k + 3 < |s| && s[k] == '%' && IsContinuation(s[k + 3] as int)
  {
    if s != [] && !CutsCharacter(s) {
      var step := if StartsEscape(s) then 3 else 1;
      PanicsIff(s[step..]);
      assert Unescaped(s) == None <==> Unescaped(s[step..]) == None;
      if k :| 0 <= k && k + 3 < |s[step..]| && s[step..][k] == '%' && IsContinuation(s[step..][k + 3] as int) {
        assert s[k + step] == '%' && IsContinuation(s[k + step + 3] as int);
      }
      if k :| 0 <= k && k + 3 < |s| && s[k] == '%' && IsContinuation(s[k + 3] as int) {
        assert k >= step;
        assert s[step..][k - step] == '%' && IsContinuation(s[step..][k - step + 3] as int);
      }
    }
  }

  lemma EscapeReadsBack(c: char)
    requires c as int < 256
    ensures FromRadix16(HexDigit(c as int / 16), HexDigit(c as int % 16)) == Some(c as int)
  {
  }

  // A hexadecimal digit in either case.
  predicate IsHex(c: char, n: nat) {
    n < 16 && (c == "0123456789ABCDEF"[n] || c == "0123456789abcdef"[n])
  }

  lemma HexValueIff(c: char, n: nat)
    ensures HexValue(c) == Some(n) <==> IsHex(c, n)
  {
  }

  // Two characters are read as a byte exactly when they are its hexadecimal digits, in either case, or a
  // plus sign before its only one.
  lemma EscapesIff(a: char, b: char, n: nat)
    ensures FromRadix16(a, b) == Some(n) <==>
      n < 256 && ((IsHex(a, n / 16) && IsHex(b, n % 16)) || (a == '+' && IsHex(b, n)))
  {
    if FromRadix16(a, b).Some? {
      var high, low := if a == '+' then 0 else HexValue(a).value, HexValue(b).value;
      assert (high * 16 + low) / 16 == high && (high * 16 + low) % 16 == low;
      HexValueIff(b, low);
      if a != '+' {
        HexValueIff(a, high);
      }
    }
    if n < 256 {
      HexValueIff(a, n / 16);
      HexValueIff(b, n % 16);
    }
  }

  const UPPER: string := "ABCDEFGHIJKLMNOPQRSTUVWXYZ"
  const LOWER: string := "abcdefghijklmnopqrstuvwxyz"
  const DIGITS: string := "0123456789"

  // The unreserved characters of RFC 3986 section 2.3 stand for themselves; every other byte is escaped,
  // with upper-case digits.
  lemma EncodedByteIs(c: char)
    requires c as int < 256
    ensures PercentEncoded([c])
         == if c in UPPER || c in LOWER || c in DIGITS || c in "-._~" then [c]
            else ['%', "0123456789ABCDEF"[c as int / 16], "0123456789ABCDEF"[c as int % 16]]
  {
    UpperIs(c);
    LowerIs(c);
    DigitIs(c);
    assert [c][1..] == [] && PercentEncoded([]) == [] && EncodedByte(c) + [] == EncodedByte(c);
  }

  lemma UpperIs(c: char)
    ensures 'A' <= c <= 'Z' <==> c in UPPER
  {
    if 'A' <= c <= 'Z' {
      assert UPPER[c as int - 'A' as int] == c;
    }
  }

  lemma LowerIs(c: char)
    ensures 'a' <= c <= 'z' <==> c in LOWER
  {
    if 'a' <= c <= 'z' {
      assert LOWER[c as int - 'a' as int] == c;
    }
  }

  lemma DigitIs(c: char)
    ensures '0' <= c <= '9' <==> c in DIGITS
  {
    if '0' <= c <= '9' {
      assert DIGITS[c as int - '0' as int] == c;
    }
  }

  lemma {:induction false} EncodedUnescapes(s: string)
    requires IsBytes(s)
    ensures Unescaped(PercentEncoded(s)) == Some(s) && IsAscii(PercentEncoded(s))
  {
    if s != [] {
      var piece, rest := EncodedByte(s[0]), PercentEncoded(s[1..]);
      EncodedUnescapes(s[1..]);
      EscapeReadsBack(s[0]);
      assert (piece + rest)[|piece|..] == rest;
      assert forall k :: 0 <= k < |piece| ==> piece[k] as int < 0x80;
      if |piece| == 3 && rest != [] {
        assert (piece + rest)[3] == rest[0];
      }
      assert !CutsCharacter(piece + rest);
      assert [s[0]] + s[1..] == s;
    }
  }

  // Decoding undoes encoding exactly on texts.
  lemma PercentRoundTrip(s: string)
    requires IsBytes(s)
    ensures PercentDecoded(PercentEncoded(s)) == Some(s) <==> WellFormed(s)
  {
    EncodedUnescapes(s);
    LossyIsIdentityIff(s);
  }

  // An encoded text holds none of the characters that delimit a query.
  lemma {:induction false} EncodedIsPlain(s: string)
    requires IsBytes(s)
    ensures forall c :: c in PercentEncoded(s) ==> Unreserved(c) || c == '%'
  {
    if s != [] {
      EncodedIsPlain(s[1..]);
    }
  }

  // ---- the relay origin ----

  // The position of the first occurrence of a pattern.
  function Find(s: string, pattern: string): (i: Option<nat>)
    ensures i.Some? ==> i.value <= |s| && pattern <= s[i.value..]
  {
    if pattern <= s then Some(0)
    else if s == [] then None
    else match Find(s[1..], pattern)
         case None => None
         case Some(i) => Some(i + 1)
  }

  predicate IsHost(rest: string) {
    rest != [] && '/' !in rest && '?' !in rest && '#' !in rest && '@' !in rest
  }

  predicate IsAbsoluteHttpOrigin(origin: string) {
    var at := Find(origin, "://");
    at.Some?
    && (origin[..at.value] == "http" || origin[..at.value] == "https")
    && IsHost(origin[at.value + 3..])
  }

  lemma OriginHasScheme(origin: string) returns (rest: string)
    requires IsAbsoluteHttpOrigin(origin)
    ensures IsHost(rest) && (origin == "http" + "://" + rest || origin == "https" + "://" + rest)
  {
    var i := Find(origin, "://").value;
    rest := origin[i + 3..];
    assert origin == origin[..i] + "://" + rest;
  }

  // Something with no path, query, fragment or user name.
  predicate HostOnly(rest: string) {
    |rest| > 0 && forall k :: 0 <= k < |rest| ==> rest[k] != '/' && rest[k] != '?' && rest[k] != '#' && rest[k] != '@'
  }

  lemma HostIs(rest: string)
    ensures IsHost(rest) <==> HostOnly(rest)
  {
    if HostOnly(rest) {
      assert forall c :: c in rest ==> c != '/' && c != '?' && c != '#' && c != '@';
    }
  }

  // An origin is one of the two schemes followed by a host and nothing else.
  lemma OriginIff(origin: string)
    ensures IsAbsoluteHttpOrigin(origin) <==>
      (exists rest :: HostOnly(rest) && (origin == "http" + "://" + rest || origin == "https" + "://" + rest))
  {
    if IsAbsoluteHttpOrigin(origin) {
      var rest := OriginHasScheme(origin);
      HostIs(rest);
    }
    forall rest | HostOnly(rest) && (origin == "http" + "://" + rest || origin == "https" + "://" + rest)
      ensures IsAbsoluteHttpOrigin(origin)
    {
      HostIs(rest);
      SchemeIsFound("http", rest);
      SchemeIsFound("https", rest);
    }
  }

  lemma SchemeIsFound(scheme: string, rest: string)
    requires scheme == "http" || scheme == "https"
    ensures var origin := scheme + "://" + rest;
      Find(origin, "://") == Some(|scheme|) && origin[..|scheme|] == scheme && origin[|scheme| + 3..] == rest
  {
    FindAt(scheme + "://" + rest, |scheme|);
  }

  lemma {:induction false} FindAt(s: string, n: nat)
    requires n + 3 <= |s| && s[n..n + 3] == "://"
    requires forall k :: 0 <= k < n ==> s[k] != ':'
    ensures Find(s, "://") == Some(n)
  {
    if n == 0 {
      assert s[..3] == "://";
    } else {
      assert s[0] != "://"[0];
      assert s[1..][n - 1..n + 2] == s[n..n + 3];
      FindAt(s[1..], n - 1);
    }
  }

  // ---- the query ----

  datatype QueryFields = QueryFields(
    version: Option<string>, relayOrigin: Option<string>, handle: Option<string>, phrase: Option<string>)

  const EMPTY: QueryFields := QueryFields(None, None, None, None)

  predicate IsKnown(key: string) {
    key == "v" || key == "r" || key == "h" || key == "p"
  }

  function Get(f: QueryFields, key: string): Option<string> {
    if key == "v" then f.version
    else if key == "r" then f.relayOrigin
    else if key == "h" then f.handle
    else f.phrase
  }

  function Put(f: QueryFields, key: string, value: string): QueryFields {
    if key == "v" then f.(version := Some(value))
    else if key == "r" then f.(relayOrigin := Some(value))
    else if key == "h" then f.(handle := Some(value))
    else f.(phrase := Some(value))
  }

  // Only the origin travels percent-encoded.
  function Read(key: string, value: string): Option<string> {
    if key == "r" then PercentDecoded(value) else Some(value)
  }

  function FieldsFrom(pairs: seq<string>, f: QueryFields): Result<QueryFields> {
    if pairs == [] then Ok(f)
    else match SplitOnce(pairs[0], '=')
         case None => Err(FieldMissing)
         case Some((key, value)) =>
           if !IsKnown(key) then FieldsFrom(pairs[1..], f)
           else if Get(f, key).Some? then Err(FieldRepeated)
           else if Read(key, value) == None then Panic
           else FieldsFrom(pairs[1..], Put(f, key, Read(key, value).value))
  }

  method ParseQuery(query: string) returns (r: Result<QueryFields>)
    ensures r == FieldsFrom(Split(query, '&'), EMPTY)
  {
    var pairs := Split(query, '&');
    var fields := EMPTY;
    for i := 0 to |pairs|
      invariant FieldsFrom(pairs[i..], fields) == FieldsFrom(pairs, EMPTY)
    {
      assert pairs[i..][1..] == pairs[i + 1..];
      var pair := SplitOnce(pairs[i], '=');
      if pair == None {
        return Err(FieldMissing);
      }
      var key, value := pair.value.0, pair.value.1;
      if !IsKnown(key) {
        continue;
      }
      if Get(fields, key).Some? {
        return Err(FieldRepeated);
      }
      if key == "r" {
        var decoded := PercentDecode(value);
        if decoded == None {
          return Panic;
        }
        value := decoded.value;
      }
      fields := Put(fields, key, value);
    }
    r := Ok(fields);
  }

  // ---- building and parsing ----

  function Fields(u: Uri): seq<string>
    requires IsBytes(u.relayOrigin)
  {
    ["v=1", "r=" + PercentEncoded(u.relayOrigin), "h=" + HandleCodec.Encode(u.handle), "p=" + u.phrase]
  }

  lemma JoinOfFour(a: string, b: string, c: string, d: string)
    ensures Join([a, b, c, d], '&') == a + ['&'] + (b + ['&'] + (c + ['&'] + d))
  {
    assert [c, d][1..] == [d];
    assert Join([c, d], '&') == c + ['&'] + d;
    assert [b, c, d][1..] == [c, d];
    assert Join([b, c, d], '&') == b + ['&'] + (c + ['&'] + d);
    assert [a, b, c, d][1..] == [b, c, d];
  }

  method Build(u: Uri) returns (text: string)
    requires IsBytes(u.relayOrigin)
    ensures text == PREFIX + Join(Fields(u), '&')
  {
    var origin := PercentEncode(u.relayOrigin);
    var v, r, h, p := "v=1", "r=" + origin, "h=" + HandleCodec.Encode(u.handle), "p=" + u.phrase;
    text := SCHEME + "://pair?" + (v + ['&'] + (r + ['&'] + (h + ['&'] + p)));
    JoinOfFour(v, r, h, p);
    assert SCHEME + "://pair?" == PREFIX;
  }

  function Checked(f: QueryFields): Result<Uri> {
    if f.version != Some("1") then Err(Version)
    else if f.relayOrigin == None || f.handle == None || f.phrase == None then Err(FieldMissing)
    else if !IsAbsoluteHttpOrigin(f.relayOrigin.value) then Err(RelayOriginInvalid)
    else match HandleCodec.Parse(f.handle.value)
         case BadHandle(error) => Err(HandleMalformed(error))
         case ParsedHandle(handle) => Ok(Uri(f.relayOrigin.value, handle, f.phrase.value))
  }

  function ParseOf(uri: string): Result<Uri> {
    if |uri| > MAX_LEN then Err(TooLong)
    else if !(SCHEME + "://" <= uri) then Err(Scheme)
    else match SplitOnce(uri[|SCHEME| + 3..], '?')
         case None => Err(FieldMissing)
         case Some((path, query)) =>
           if path != "pair" then Err(Path)
           else match FieldsFrom(Split(query, '&'), EMPTY)
                case Ok(fields) => Checked(fields)
                case Err(error) => Err(error)
                case Panic => Panic
  }

  method Parse(uri: string) returns (r: Result<Uri>)
    ensures r == ParseOf(uri)
  {
    if |uri| > MAX_LEN {
      return Err(TooLong);
    }
    if !(SCHEME + "://" <= uri) {
      return Err(Scheme);
    }
    var parts := SplitOnce(uri[|SCHEME| + 3..], '?');
    if parts == None {
      return Err(FieldMissing);
    }
    if parts.value.0 != "pair" {
      return Err(Path);
    }
    var fields := ParseQuery(parts.value.1);
    match fields {
      case Ok(f) => r := Checked(f);
      case Err(error) => r := Err(error);
      case Panic => r := Panic;
    }
  }

  // ---- what is accepted ----

  predicate HasKey(pair: string, key: string) {
    SplitOnce(pair, '=').Some? && SplitOnce(pair, '=').value.0 == key
  }

  // The values given for a key, in order.
  function Values(pairs: seq<string>, key: string): seq<string> {
    if pairs == [] then []
    else (if HasKey(pairs[0], key) then [SplitOnce(pairs[0], '=').value.1] else []) + Values(pairs[1..], key)
  }

  predicate AllPairs(pairs: seq<string>) {
    forall k :: 0 <= k < |pairs| ==> '=' in pairs[k]
  }

  // What a slot ends up with: nothing may fill it twice.
  predicate Fills(pairs: seq<string>, f: QueryFields, g: QueryFields, key: string) {
    var values := Values(pairs, key);
    if values == [] then Get(g, key) == Get(f, key)
    else |values| == 1 && Get(f, key) == None && Get(g, key) == Read(key, values[0]) && Get(g, key).Some?
  }

  // Slot `key` after the first pair `k = v`, when `k` is a known key not yet filled.
  lemma FillsIff(pairs: seq<string>, f: QueryFields, g: QueryFields, key: string, k: string, v: string, read: string)
    requires pairs != [] && SplitOnce(pairs[0], '=') == Some((k, v)) && IsKnown(key)
    ensures k == key ==>
      (Fills(pairs, f, g, key) && Read(k, v) == Some(read) <==>
        Get(f, key) == None && Read(k, v) == Some(read) && Fills(pairs[1..], Put(f, k, read), g, key))
    ensures k == key && Read(k, v) == None ==> !Fills(pairs, f, g, key)
    ensures k != key ==> (Fills(pairs, f, g, key) <==> Fills(pairs[1..], f, g, key))
    ensures k != key && IsKnown(k) ==> (Fills(pairs, f, g, key) <==> Fills(pairs[1..], Put(f, k, read), g, key))
  {
  }

  ghost predicate FillsAll(pairs: seq<string>, f: QueryFields, g: QueryFields) {
    Fills(pairs, f, g, "v") && Fills(pairs, f, g, "r") && Fills(pairs, f, g, "h") && Fills(pairs, f, g, "p")
  }

  lemma FillsAllIff(pairs: seq<string>, f: QueryFields, g: QueryFields, k: string, v: string)
    requires pairs != [] && SplitOnce(pairs[0], '=') == Some((k, v))
    ensures FillsAll(pairs, f, g) <==>
      if !IsKnown(k) then FillsAll(pairs[1..], f, g)
      else Get(f, k) == None && Read(k, v).Some? && FillsAll(pairs[1..], Put(f, k, Read(k, v).value), g)
  {
    var read := if Read(k, v).Some? then Read(k, v).value else [];
    FillsIff(pairs, f, g, "v", k, v, read);
    FillsIff(pairs, f, g, "r", k, v, read);
    FillsIff(pairs, f, g, "h", k, v, read);
    FillsIff(pairs, f, g, "p", k, v, read);
  }

  // A query is read exactly when every pair has a value, no known key comes twice and the origin
  // decodes; what is read does not depend on the order of the pairs.
  lemma {:induction false} FieldsIff(pairs: seq<string>, f: QueryFields, g: QueryFields)
    ensures FieldsFrom(pairs, f) == Ok(g) <==> AllPairs(pairs) && FillsAll(pairs, f, g)
  {
    if pairs != [] {
      var pair := SplitOnce(pairs[0], '=');
      assert AllPairs(pairs) <==> pair.Some? && AllPairs(pairs[1..]);
      if pair.Some? {
        var key, value := pair.value.0, pair.value.1;
        FillsAllIff(pairs, f, g, key, value);
        if !IsKnown(key) {
          FieldsIff(pairs[1..], f, g);
        } else if Read(key, value).Some? {
          FieldsIff(pairs[1..], Put(f, key, Read(key, value).value), g);
        }
      }
    }
  }

  // The text spells `u`: the prefix, then pairs of which exactly one gives each of the four fields.
  predicate Spells(uri: string, pairs: seq<string>, u: Uri) {
    && |uri| <= MAX_LEN && pairs != [] && uri == PREFIX + Join(pairs, '&')
    && (forall k :: 0 <= k < |pairs| ==> '&' !in pairs[k]) && AllPairs(pairs)
    && Values(pairs, "v") == ["1"] && Values(pairs, "p") == [u.phrase]
    && Values(pairs, "h") == [HandleCodec.Encode(u.handle)]
    && |Values(pairs, "r")| == 1 && PercentDecoded(Values(pairs, "r")[0]) == Some(u.relayOrigin)
    && IsAbsoluteHttpOrigin(u.relayOrigin)
  }

  lemma PrefixIsSplit(query: string)
    ensures SCHEME + "://" <= PREFIX + query
    ensures SplitOnce((PREFIX + query)[|SCHEME| + 3..], '?') == Some(("pair", query))
  {
    var uri := PREFIX + query;
    assert PREFIX == SCHEME + "://" + ("pair" + ['?']);
    assert uri[..|SCHEME| + 3] == SCHEME + "://";
    assert uri[|SCHEME| + 3..] == "pair" + ['?'] + query;
    SplitOnceOfPair("pair", query, '?');
  }

  lemma PrefixSplits(uri: string, query: string)
    ensures uri == PREFIX + query <==>
      SCHEME + "://" <= uri && SplitOnce(uri[|SCHEME| + 3..], '?') == Some(("pair", query))
  {
    PrefixIsSplit(query);
    if SCHEME + "://" <= uri {
      assert uri == SCHEME + "://" + uri[|SCHEME| + 3..];
      assert PREFIX + query == SCHEME + "://" + ("pair" + ['?'] + query);
    }
  }

  lemma CheckedIff(f: QueryFields, u: Uri)
    ensures Checked(f) == Ok(u) <==>
      f == QueryFields(Some("1"), Some(u.relayOrigin), Some(HandleCodec.Encode(u.handle)), Some(u.phrase))
      && IsAbsoluteHttpOrigin(u.relayOrigin)
  {
    HandleCodec.ParseIff(HandleCodec.Encode(u.handle), u.handle);
    if f.handle.Some? {
      HandleCodec.ParseIff(f.handle.value, u.handle);
    }
  }

  // The four slots of a query that fills them all.
  lemma QueryIff(pairs: seq<string>, g: QueryFields)
    requires g.version.Some? && g.relayOrigin.Some? && g.handle.Some? && g.phrase.Some?
    ensures FieldsFrom(pairs, EMPTY) == Ok(g) <==>
      && AllPairs(pairs)
      && Values(pairs, "v") == [g.version.value] && Values(pairs, "h") == [g.handle.value]
      && Values(pairs, "p") == [g.phrase.value]
      && |Values(pairs, "r")| == 1 && PercentDecoded(Values(pairs, "r")[0]) == g.relayOrigin
  {
    FieldsIff(pairs, EMPTY, g);
  }

  // ---- which failure is reported ----

  lemma {:induction false} AfterGoodPairs(pairs: seq<string>, k: nat, f: QueryFields, g: QueryFields)
    requires k <= |pairs| && FieldsFrom(pairs[..k], f) == Ok(g)
    ensures FieldsFrom(pairs, f) == FieldsFrom(pairs[k..], g)
  {
    if k > 0 {
      assert pairs[..k][0] == pairs[0] && pairs[..k][1..] == pairs[1..][..k - 1];
      assert pairs[1..][k - 1..] == pairs[k..];
      var pair := SplitOnce(pairs[0], '=');
      var key, value := pair.value.0, pair.value.1;
      AfterGoodPairs(pairs[1..], k - 1, if IsKnown(key) then Put(f, key, Read(key, value).value) else f, g);
    } else {
      assert pairs[0..] == pairs;
    }
  }

  // Of a query, the first pair that cannot be read decides: one without a value; one whose known key was
  // given before; or an origin whose decoding does not return.
  lemma FirstFailureDecides(pairs: seq<string>, k: nat)
    requires k < |pairs| && FieldsFrom(pairs[..k], EMPTY).Ok?
    ensures '=' !in pairs[k] ==> FieldsFrom(pairs, EMPTY) == Err(FieldMissing)
    ensures forall key :: key in {"v", "r", "h", "p"} && HasKey(pairs[k], key) ==>
      var value := SplitOnce(pairs[k], '=').value.1;
      && (Values(pairs[..k], key) != [] ==> FieldsFrom(pairs, EMPTY) == Err(FieldRepeated))
      && (Values(pairs[..k], key) == [] && key == "r" && PercentDecoded(value) == None ==>
            FieldsFrom(pairs, EMPTY) == Panic)
  {
    var g := FieldsFrom(pairs[..k], EMPTY).value;
    FieldsIff(pairs[..k], EMPTY, g);
    AfterGoodPairs(pairs, k, EMPTY, g);
    assert pairs[k..][0] == pairs[k];
  }

  // Before the query is looked at: the length, the scheme, and what precedes the first question mark.
  lemma EarlyFailures(uri: string)
    ensures ParseOf(uri) == Err(TooLong) <==> |uri| > 512
    ensures ParseOf(uri) == Err(Scheme) <==> |uri| <= 512 && !("herdr-remote://" <= uri)
    ensures ParseOf(uri) == Err(Path) <==>
      |uri| <= 512 && "herdr-remote://" <= uri && '?' in uri[15..] && !("pair?" <= uri[15..])
    ensures |uri| <= 512 && "herdr-remote://" <= uri && '?' !in uri[15..] ==> ParseOf(uri) == Err(FieldMissing)
  {
    assert SCHEME + "://" == "herdr-remote://";
    if "herdr-remote://" <= uri && '?' in uri[15..] {
      var rest := uri[15..];
      var parts := SplitOnce(rest, '?').value;
      if "pair?" <= rest {
        var query := rest[5..];
        assert rest == "pair" + ['?'] + query;
        SplitOnceOfPair("pair", query, '?');
      }
      FieldsErrorIsNoPath(Split(parts.1, '&'), EMPTY);
    }
  }

  // The query itself never fails for the length, the scheme or the path.
  lemma {:induction false} FieldsErrorIsNoPath(pairs: seq<string>, f: QueryFields)
    ensures var r := FieldsFrom(pairs, f); r.Err? ==> r.error == FieldMissing || r.error == FieldRepeated
  {
    if pairs != [] {
      var pair := SplitOnce(pairs[0], '=');
      if pair.Some? {
        var key, value := pair.value.0, pair.value.1;
        FieldsErrorIsNoPath(pairs[1..], f);
        if Read(key, value).Some? {
          FieldsErrorIsNoPath(pairs[1..], Put(f, key, Read(key, value).value));
        }
      }
    }
  }

  // Of the fields read: a version other than 1; a field that is missing; an origin that is none; a handle
  // that is none, for its length before its characters.
  lemma FieldFailures(f: QueryFields)
    ensures var r, all := Checked(f), f.relayOrigin.Some? && f.handle.Some? && f.phrase.Some?;
      var version := f.version == Some("1");
      var origin := all && exists rest ::
        && HostOnly(rest)
        && (f.relayOrigin.value == "http" + "://" + rest || f.relayOrigin.value == "https" + "://" + rest);
      && (r == Err(Version) <==> !version)
      && (r == Err(FieldMissing) <==> version && !all)
      && (r == Err(RelayOriginInvalid) <==> version && all && !origin)
      && (r == Err(HandleMalformed(HandleCodec.WrongLength)) <==> version && origin && |f.handle.value| != 22)
      && (r == Err(HandleMalformed(HandleCodec.Undecodable)) <==>
            version && origin && |f.handle.value| == 22 && forall h :: HandleCodec.Encode(h) != f.handle.value)
  {
    if f.relayOrigin.Some? {
      OriginIff(f.relayOrigin.value);
    }
    if f.handle.Some? {
      HandleCodec.RejectsIff(f.handle.value);
    }
  }

  // A text is accepted as `u` exactly when it spells `u`.
  lemma ParseIff(uri: string, u: Uri)
    ensures ParseOf(uri) == Ok(u) <==> exists pairs :: Spells(uri, pairs, u)
  {
    var g := QueryFields(Some("1"), Some(u.relayOrigin), Some(HandleCodec.Encode(u.handle)), Some(u.phrase));
    if ParseOf(uri) == Ok(u) {
      var query := SplitOnce(uri[|SCHEME| + 3..], '?').value.1;
      var pairs := Split(query, '&');
      PrefixSplits(uri, query);
      SplitInverts(query, '&');
      PartsArePlain(query, '&');
      CheckedIff(FieldsFrom(pairs, EMPTY).value, u);
      QueryIff(pairs, g);
      assert Spells(uri, pairs, u);
    }
    forall pairs | Spells(uri, pairs, u)
      ensures ParseOf(uri) == Ok(u)
    {
      PrefixSplits(uri, Join(pairs, '&'));
      JoinInverts(pairs, '&');
      QueryIff(pairs, g);
      CheckedIff(g, u);
    }
  }

  // ---- what is built is read back, in any order and with unknown fields between ----

  lemma FieldPair(key: char, value: string)
    requires key != '='
    ensures SplitOnce([key, '='] + value, '=') == Some(([key], value))
  {
    assert [key, '='] + value == [key] + ['='] + value;
    SplitOnceOfPair([key], value, '=');
  }

  lemma {:induction false} ValuesSum(a: seq<string>, b: seq<string>, key: string)
    ensures Values(a + b, key) == Values(a, key) + Values(b, key)
  {
    if a == [] {
      assert a + b == b;
    } else {
      assert (a + b)[1..] == a[1..] + b;
      ValuesSum(a[1..], b, key);
      var first := if HasKey(a[0], key) then [SplitOnce(a[0], '=').value.1] else [];
      assert first + (Values(a[1..], key) + Values(b, key)) == (first + Values(a[1..], key)) + Values(b, key);
    }
  }

  predicate KnownPair(pair: string) {
    SplitOnce(pair, '=').Some? && IsKnown(SplitOnce(pair, '=').value.0)
  }

  // The pairs whose key is one of the four.
  function Known(pairs: seq<string>): seq<string> {
    if pairs == [] then []
    else (if KnownPair(pairs[0]) then [pairs[0]] else []) + Known(pairs[1..])
  }

  lemma OneField(name: char, value: string, rest: seq<string>, key: string)
    requires name != '='
    ensures Values([[name, '='] + value] + rest, key) == (if key == [name] then [value] else []) + Values(rest, key)
    ensures IsKnown([name]) ==> Known([[name, '='] + value] + rest) == [[name, '='] + value] + Known(rest)
  {
    FieldPair(name, value);
    assert ([[name, '='] + value] + rest)[1..] == rest;
  }

  lemma FourFields(v: string, r: string, h: string, p: string, key: string)
    requires IsKnown(key)
    ensures var fields := [['v', '='] + v] + ([['r', '='] + r] + ([['h', '='] + h] + ([['p', '='] + p] + [])));
      && Values(fields, key) == [if key == "v" then v else if key == "r" then r else if key == "h" then h else p]
      && Known(fields) == fields
  {
    OneField('p', p, [], key);
    OneField('h', h, [['p', '='] + p] + [], key);
    OneField('r', r, [['h', '='] + h] + ([['p', '='] + p] + []), key);
    OneField('v', v, [['r', '='] + r] + ([['h', '='] + h] + ([['p', '='] + p] + [])), key);
  }

  lemma FieldsAreFour(u: Uri)
    requires IsBytes(u.relayOrigin)
    ensures AllPairs(Fields(u)) && Known(Fields(u)) == Fields(u)
    ensures Values(Fields(u), "v") == ["1"] && Values(Fields(u), "r") == [PercentEncoded(u.relayOrigin)]
    ensures Values(Fields(u), "h") == [HandleCodec.Encode(u.handle)] && Values(Fields(u), "p") == [u.phrase]
  {
    var r, h := PercentEncoded(u.relayOrigin), HandleCodec.Encode(u.handle);
    var a, b, c, d := ['v', '='] + "1", ['r', '='] + r, ['h', '='] + h, ['p', '='] + u.phrase;
    assert "v=1" == a && "r=" + r == b && "h=" + h == c && "p=" + u.phrase == d;
    assert Fields(u) == [a, b, c, d] == [a] + ([b] + ([c] + ([d] + [])));
    FourFields("1", r, h, u.phrase, "v");
    FourFields("1", r, h, u.phrase, "r");
    FourFields("1", r, h, u.phrase, "h");
    FourFields("1", r, h, u.phrase, "p");
  }

  lemma {:induction false} ValuesOfKnown(pairs: seq<string>, key: string)
    requires IsKnown(key)
    ensures Values(Known(pairs), key) == Values(pairs, key)
  {
    if pairs != [] {
      ValuesOfKnown(pairs[1..], key);
      ValuesSum(if KnownPair(pairs[0]) then [pairs[0]] else [], Known(pairs[1..]), key);
    }
  }

  // A value occurs as often as the pair that gives it.
  lemma FirstValue(pair: string, key: string, v: string)
    requires '=' !in key
    ensures pair == key + ['='] + v <==> HasKey(pair, key) && SplitOnce(pair, '=').value.1 == v
  {
    SplitOnceOfPair(key, v, '=');
  }

  lemma {:induction false} ValueCount(pairs: seq<string>, key: string, v: string)
    requires '=' !in key
    ensures multiset(Values(pairs, key))[v] == multiset(pairs)[key + ['='] + v]
  {
    if pairs != [] {
      ValueCount(pairs[1..], key, v);
      FirstValue(pairs[0], key, v);
      var first := if HasKey(pairs[0], key) then [SplitOnce(pairs[0], '=').value.1] else [];
      assert multiset(Values(pairs, key)) == multiset(first) + multiset(Values(pairs[1..], key));
      assert pairs == [pairs[0]] + pairs[1..];
    }
  }

  lemma ValuesOfPermutation(a: seq<string>, b: seq<string>, key: string)
    requires multiset(a) == multiset(b) && '=' !in key
    ensures multiset(Values(a, key)) == multiset(Values(b, key))
  {
    forall v
      ensures multiset(Values(a, key))[v] == multiset(Values(b, key))[v]
    {
      ValueCount(a, key, v);
      ValueCount(b, key, v);
    }
  }

  lemma SingletonPermutation(values: seq<string>, x: string)
    requires multiset(values) == multiset([x])
    ensures values == [x]
  {
    assert |values| == |multiset(values)| == 1;
    assert values[0] in multiset(values);
  }

  lemma OneValue(pairs: seq<string>, u: Uri, key: string, x: string)
    requires IsBytes(u.relayOrigin) && multiset(Known(pairs)) == multiset(Fields(u))
    requires IsKnown(key) && Values(Fields(u), key) == [x]
    ensures Values(pairs, key) == [x]
  {
    ValuesOfKnown(pairs, key);
    ValuesOfPermutation(Known(pairs), Fields(u), key);
    SingletonPermutation(Values(pairs, key), x);
  }

  // Any order of the four fields, with any unknown fields between them, is read as the same URI.
  lemma AnyOrderReadsBack(u: Uri, pairs: seq<string>)
    requires IsBytes(u.relayOrigin) && WellFormed(u.relayOrigin) && IsAbsoluteHttpOrigin(u.relayOrigin)
    requires AllPairs(pairs) && forall k :: 0 <= k < |pairs| ==> '&' !in pairs[k]
    requires multiset(Known(pairs)) == multiset(Fields(u))
    requires |PREFIX + Join(pairs, '&')| <= MAX_LEN
    ensures ParseOf(PREFIX + Join(pairs, '&')) == Ok(u)
  {
    FieldsAreFour(u);
    PercentRoundTrip(u.relayOrigin);
    OneValue(pairs, u, "v", "1");
    OneValue(pairs, u, "r", PercentEncoded(u.relayOrigin));
    OneValue(pairs, u, "h", HandleCodec.Encode(u.handle));
    OneValue(pairs, u, "p", u.phrase);
    assert Spells(PREFIX + Join(pairs, '&'), pairs, u);
    ParseIff(PREFIX + Join(pairs, '&'), u);
  }

  // A built URI is read back exactly when its origin, a text, is an origin, its phrase holds no `&`,
  // and it is at most 512 bytes long.
  lemma BuildReadsBackIff(u: Uri)
    requires IsBytes(u.relayOrigin) && WellFormed(u.relayOrigin)
    ensures ParseOf(PREFIX + Join(Fields(u), '&')) == Ok(u) <==>
      IsAbsoluteHttpOrigin(u.relayOrigin) && '&' !in u.phrase && |PREFIX + Join(Fields(u), '&')| <= MAX_LEN
  {
    var uri := PREFIX + Join(Fields(u), '&');
    FieldsAreFour(u);
    if IsAbsoluteHttpOrigin(u.relayOrigin) && '&' !in u.phrase && |uri| <= MAX_LEN {
      FieldsArePlain(u);
      AnyOrderReadsBack(u, Fields(u));
    } else if ParseOf(uri) == Ok(u) {
      ParseIff(uri, u);
      var pairs :| Spells(uri, pairs, u);
      ValuesArePlain(pairs, "p");
    }
  }

  lemma {:induction false} ValuesArePlain(pairs: seq<string>, key: string)
    requires forall k :: 0 <= k < |pairs| ==> '&' !in pairs[k]
    ensures forall v :: v in Values(pairs, key) ==> '&' !in v
  {
    if pairs != [] {
      assert '&' !in pairs[0];
      ValuesArePlain(pairs[1..], key);
    }
  }

  lemma FieldsArePlain(u: Uri)
    requires IsBytes(u.relayOrigin) && '&' !in u.phrase
    ensures forall k :: 0 <= k < 4 ==> '&' !in Fields(u)[k]
  {
    EncodedIsPlain(u.relayOrigin);
    HandleCodec.AlphabetOnly(HandleCodec.ToSextets(u.handle, 5));
  }

  // ---- malformed bytes and slices ----

  lemma {:induction false} AsciiParts(s: string, separator: char)
    requires IsAscii(s)
    ensures forall p :: p in Split(s, separator) ==> IsAscii(p)
  {
    if s != [] {
      AsciiParts(s[1..], separator);
      assert Split(s[1..], separator)[0] in Split(s[1..], separator);
    }
  }

  lemma AsciiSplitOnce(s: string, separator: char)
    requires IsAscii(s) && SplitOnce(s, separator).Some?
    ensures IsAscii(SplitOnce(s, separator).value.1)
  {
    var parts := SplitOnce(s, separator).value;
    assert forall k :: 0 <= k < |parts.1| ==> parts.1[k] == s[|parts.0| + 1 + k];
  }

  lemma {:induction false} AsciiFieldsReturn(pairs: seq<string>, f: QueryFields)
    requires forall p :: p in pairs ==> IsAscii(p)
    ensures FieldsFrom(pairs, f) != Panic
  {
    if pairs != [] {
      assert IsAscii(pairs[0]);
      var pair := SplitOnce(pairs[0], '=');
      if pair.Some? {
        var key, value := pair.value.0, pair.value.1;
        AsciiSplitOnce(pairs[0], '=');
        PanicsIff(value);
        if !IsKnown(key) {
          AsciiFieldsReturn(pairs[1..], f);
        } else if Read(key, value).Some? {
          AsciiFieldsReturn(pairs[1..], Put(f, key, Read(key, value).value));
        }
      }
    }
  }

  // Parsing an ASCII text always returns.
  lemma AsciiParsingReturns(uri: string)
    requires IsAscii(uri)
    ensures ParseOf(uri) != Panic
  {
    if SCHEME + "://" <= uri {
      var rest := uri[|SCHEME| + 3..];
      if SplitOnce(rest, '?').Some? {
        var query := SplitOnce(rest, '?').value.1;
        AsciiSplitOnce(rest, '?');
        AsciiParts(query, '&');
        AsciiFieldsReturn(Split(query, '&'), EMPTY);
      }
    }
  }

  const CUT: string := ['%', 'a', 0xC3 as char, 0xA9 as char]

  lemma CutIsText(before: string)
    requires IsAscii(before)
    ensures WellFormed(before + CUT)
  {
    var character := CUT[2..];
    assert WellFormed(character) by {
      assert Matched(character) == 2 && character[2..] == [];
    }
    AsciiThenText(before + CUT[..2], character);
    assert before + CUT == (before + CUT[..2]) + character;
  }

  lemma CutOriginPanics()
    ensures FieldsFrom(Split(CUT_QUERY, '&'), EMPTY) == Panic
  {
    SplitOfPlain(['r', '='] + CUT, '&');
    FieldPair('r', CUT);
    assert CutsCharacter(CUT);
  }

  const CUT_QUERY: string := ['r', '='] + CUT

  lemma CutQuerySplits()
    ensures PREFIX + CUT_QUERY == (PREFIX + ['r', '=']) + CUT
  {
    Regroup(PREFIX, ['r', '='], CUT);
  }

  lemma PrefixFits()
    ensures IsAscii(PREFIX + ['r', '=']) && |PREFIX + CUT_QUERY| <= MAX_LEN
  {
  }

  // A text on which parsing does not return: an escape cut short by a two-byte character.
  lemma ParsingCanPanic()
    ensures WellFormed(PREFIX + CUT_QUERY) && ParseOf(PREFIX + CUT_QUERY) == Panic
  {
    PrefixFits();
    CutOriginPanics();
    CutQuerySplits();
    CutIsText(PREFIX + ['r', '=']);
    QueryPanics(CUT_QUERY);
  }

  lemma QueryPanics(query: string)
    requires FieldsFrom(Split(query, '&'), EMPTY) == Panic && |PREFIX + query| <= MAX_LEN
    ensures ParseOf(PREFIX + query) == Panic
  {
    PrefixIsSplit(query);
  }

  // The origin that parsing returns is always a text, malformed escapes replaced.
  lemma ParsedOriginIsText(uri: string)
    requires ParseOf(uri).Ok?
    ensures WellFormed(ParseOf(uri).value.relayOrigin)
  {
    var u := ParseOf(uri).value;
    ParseIff(uri, u);
    var pairs :| Spells(uri, pairs, u);
    LossyIsWellFormed(Unescaped(Values(pairs, "r")[0]).value);
  }
}
