/** Splitting a text at a separator, and joining the parts again. */
module Text {
  import opened Prelude

  // One more character in front: a new empty part, or a longer first one.
  function Preceded(c: char, parts: seq<string>, separator: char): seq<string>
    requires parts != []
  {
    if c == separator then [[]] + parts else [[c] + parts[0]] + parts[1..]
  }

  function Split(s: string, separator: char): (parts: seq<string>)
    ensures parts != []
  {
    if s == [] then [[]] else Preceded(s[0], Split(s[1..], separator), separator)
  }

  function Join(parts: seq<string>, separator: char): string {
    if parts == [] then []
    else if |parts| == 1 then parts[0]
    else parts[0] + [separator] + Join(parts[1..], separator)
  }

  lemma {:induction false} SplitInverts(s: string, separator: char)
    ensures Join(Split(s, separator), separator) == s
  {
    if s != [] {
      SplitInverts(s[1..], separator);
      var rest := Split(s[1..], separator);
      assert Preceded(s[0], rest, separator)[1..] == if s[0] == separator then rest else rest[1..];
      assert [s[0]] + s[1..] == s;
    }
  }

  lemma SplitOfMore(c: char, s: string, separator: char)
    ensures Split([c] + s, separator) == Preceded(c, Split(s, separator), separator)
  {
    assert ([c] + s)[1..] == s;
  }

  lemma PrecededSum(c: char, x: seq<string>, y: seq<string>, separator: char)
    requires x != []
    ensures Preceded(c, x + y, separator) == Preceded(c, x, separator) + y
  {
    assert (x + y)[0] == x[0] && (x + y)[1..] == x[1..] + y;
  }

  lemma {:induction false} SplitOfPair(a: string, b: string, separator: char)
    ensures Split(a + [separator] + b, separator) == Split(a, separator) + Split(b, separator)
  {
    if a == [] {
      assert a + [separator] + b == [separator] + b;
      SplitOfMore(separator, b, separator);
    } else {
      var c, rest := a[0], a[1..];
      SplitOfPair(rest, b, separator);
      SplitOfMore(c, rest + [separator] + b, separator);
      assert a + [separator] + b == [c] + (rest + [separator] + b);
      PrecededSum(c, Split(rest, separator), Split(b, separator), separator);
    }
  }

  lemma {:induction false} JoinOfTwoLists(a: seq<string>, b: seq<string>, separator: char)
    requires a != [] && b != []
    ensures Join(a + b, separator) == Join(a, separator) + [separator] + Join(b, separator)
  {
    assert (a + b)[1..] == a[1..] + b;
    if |a| > 1 {
      JoinOfTwoLists(a[1..], b, separator);
    } else {
      assert a[1..] + b == b;
    }
  }

  lemma {:induction false} SplitOfPlain(s: string, separator: char)
    requires separator !in s
    ensures Split(s, separator) == [s]
  {
    if s != [] {
      SplitOfPlain(s[1..], separator);
      assert [s[0]] + s[1..] == s;
    }
  }

  lemma {:induction false} JoinInverts(parts: seq<string>, separator: char)
    requires parts != [] && forall p :: p in parts ==> separator !in p
    ensures Split(Join(parts, separator), separator) == parts
  {
    SplitOfPlain(parts[0], separator);
    if |parts| > 1 {
      SplitOfPair(parts[0], Join(parts[1..], separator), separator);
      JoinInverts(parts[1..], separator);
    }
  }

  lemma {:induction false} PartsArePlain(s: string, separator: char)
    ensures forall p :: p in Split(s, separator) ==> separator !in p
  {
    if s != [] {
      PartsArePlain(s[1..], separator);
    }
  }

  // The text before and after the first separator, if there is one.
  function SplitOnce(s: string, separator: char): (r: Option<(string, string)>)
    ensures r == None <==> separator !in s
    ensures r.Some? ==> s == r.value.0 + [separator] + r.value.1 && separator !in r.value.0
  {
    if s == [] then None
    else if s[0] == separator then Some(([], s[1..]))
    else match SplitOnce(s[1..], separator)
         case None => None
         case Some((before, after)) => Some(([s[0]] + before, after))
  }

  lemma {:induction false} SplitOnceOfPair(a: string, b: string, separator: char)
    requires separator !in a
    ensures SplitOnce(a + [separator] + b, separator) == Some((a, b))
  {
    var s := a + [separator] + b;
    if a == [] {
      assert s[1..] == b;
    } else {
      SplitOnceOfPair(a[1..], b, separator);
      assert s[1..] == a[1..] + [separator] + b;
      assert [a[0]] + a[1..] == a;
    }
  }
}
