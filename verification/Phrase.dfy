/**
 The pairing phrase: six words of a list, joined by hyphens. Some entries of the list hold a hyphen
 themselves, so reading a phrase back has to decide which hyphens separate words.
 */
module Phrase {
  import opened Prelude
  import opened Text

  const WORD_COUNT: nat := 6
  const WORD_LIST_SIZE: nat := 7776

  datatype Phrase = Phrase(canonical: string, words: seq<string>)

  datatype PhraseError = WordListSize(found: nat) | WordCount | WordUnknown | Separator | Case

  datatype Parse = Parsed(phrase: Phrase) | Rejected(error: PhraseError)

  // ---- whitespace and trimming ----

  // The Unicode White_Space property.
  predicate IsWhitespace(c: char) {
    var n := c as int;
    0x09 <= n <= 0x0D || n == 0x20 || n == 0x85 || n == 0xA0 || n == 0x1680 || 0x2000 <= n <= 0x200A
    || n == 0x2028 || n == 0x2029 || n == 0x202F || n == 0x205F || n == 0x3000
  }

  predicate IsLower(c: char) {
    'a' <= c <= 'z'
  }

  function ToLower(c: char): char {
    if 'A' <= c <= 'Z' then (c as int + 32) as char else c
  }

  function TrimStart(s: string): string {
    if s != [] && IsWhitespace(s[0]) then TrimStart(s[1..]) else s
  }

  function TrimEnd(s: string): string {
    if s != [] && IsWhitespace(s[|s| - 1]) then TrimEnd(s[..|s| - 1]) else s
  }

  function Trim(s: string): string {
    TrimEnd(TrimStart(s))
  }

  // ---- normalisation ----

  predicate IsSeparator(c: char) {
    c == '-' || IsWhitespace(c)
  }

  // What is left to emit, given whether the last character emitted stands for a separator.
  function Collapsed(s: string, afterSeparator: bool): string {
    if s == [] then []
    else if !IsSeparator(s[0]) then [ToLower(s[0])] + Collapsed(s[1..], false)
    else (if afterSeparator then [] else ['-']) + Collapsed(s[1..], true)
  }

  function Normalized(input: string): string {
    Collapsed(Trim(input), false)
  }

  function Emitted(c: char, afterSeparator: bool): string {
    if !IsSeparator(c) then [ToLower(c)] else if afterSeparator then [] else ['-']
  }

  lemma CollapsedFrom(out: string, text: string, i: nat, afterSeparator: bool)
    requires i < |text|
    ensures out + Collapsed(text[i..], afterSeparator)
         == (out + Emitted(text[i], afterSeparator)) + Collapsed(text[i + 1..], IsSeparator(text[i]))
  {
    assert text[i..][1..] == text[i + 1..];
    Regroup(out, Emitted(text[i], afterSeparator), Collapsed(text[i + 1..], IsSeparator(text[i])));
  }

  method Normalize(input: string) returns (out: string)
    ensures out == Normalized(input)
  {
    var text := Trim(input);
    out := [];
    var afterSeparator := false;
    for i := 0 to |text|
      invariant out + Collapsed(text[i..], afterSeparator) == Collapsed(text, false)
    {
      var c := text[i];
      CollapsedFrom(out, text, i, afterSeparator);
      assert out + [] == out;
      if IsSeparator(c) {
        if !afterSeparator {
          out := out + ['-'];
        }
        afterSeparator := true;
      } else {
        out := out + [ToLower(c)];
        afterSeparator := false;
      }
    }
    assert text[|text|..] == [] && out + [] == out;
  }

  // ---- what normalisation means ----

  predicate Blank(s: string) {
    forall k :: 0 <= k < |s| ==> IsWhitespace(s[k])
  }

  // `y` is `x`, with an upper-case ASCII letter in lower case.
  predicate InLowerCase(x: char, y: char) {
    if 'A' <= x <= 'Z' then "abcdefghijklmnopqrstuvwxyz"[x as int - 'A' as int] == y else x == y
  }

  // `s` writes out `t`: each hyphen as a run of one or more separators, anything else as itself in some case.
  predicate Writes(s: string, t: string)
    decreases |s|
  {
    if t == [] then s == []
    else if s == [] then false
    else if t[0] == '-' then IsSeparator(s[0]) && (Writes(s[1..], t[1..]) || Writes(s[1..], t))
    else !IsSeparator(s[0]) && InLowerCase(s[0], t[0]) && Writes(s[1..], t[1..])
  }

  // No two hyphens in a row.
  predicate SingleHyphens(t: string) {
    forall k :: 0 <= k < |t| - 1 ==> !(t[k] == '-' && t[k + 1] == '-')
  }

  // `input` is `s` between blanks, and `s` writes out `t`.
  predicate WritesBetween(input: string, before: string, s: string, after: string, t: string) {
    && input == before + s + after && Blank(before) && Blank(after)
    && (s != [] ==> !IsWhitespace(s[0]) && !IsWhitespace(s[|s| - 1]))
    && Writes(s, t)
  }

  lemma LowerMeans(x: char, y: char)
    ensures InLowerCase(x, y) <==> ToLower(x) == y
  {
    var lower := "abcdefghijklmnopqrstuvwxyz";
    if 'A' <= x <= 'Z' {
      var k := x as int - 'A' as int;
      assert lower[k] as int == 'a' as int + k;
    }
  }

  lemma {:induction false} CollapsedIsWritten(s: string)
    ensures Writes(s, Collapsed(s, false))
    decreases |s|
  {
    if s != [] {
      CollapsedIsWritten(s[1..]);
      var t := Collapsed(s, false);
      if !IsSeparator(s[0]) {
        LowerMeans(s[0], t[0]);
        LowerIsNoHyphen(s[0]);
        assert t[1..] == Collapsed(s[1..], false);
      } else {
        var rest := s[1..];
        assert t == ['-'] + Collapsed(rest, true);
        if rest != [] && IsSeparator(rest[0]) {
          assert Collapsed(rest, true) == Collapsed(rest[1..], true);
          assert t == Collapsed(rest, false);
        } else {
          assert t[1..] == Collapsed(rest, false);
        }
      }
    }
  }

  lemma LowerIsNoHyphen(c: char)
    requires !IsSeparator(c)
    ensures !IsSeparator(ToLower(c)) && !('A' <= ToLower(c) <= 'Z')
  {
  }

  lemma {:induction false} WrittenCollapses(s: string, t: string)
    requires Writes(s, t) && SingleHyphens(t)
    ensures Collapsed(s, false) == t
    decreases |s|
  {
    if s != [] {
      var rest := s[1..];
      if t[0] != '-' {
        LowerMeans(s[0], t[0]);
        SingleHyphensTail(t);
        WrittenCollapses(rest, t[1..]);
      } else if Writes(rest, t) {
        WrittenCollapses(rest, t);
      } else {
        SingleHyphensTail(t);
        WrittenCollapses(rest, t[1..]);
        assert rest != [] ==> !IsSeparator(rest[0]);
      }
    }
  }

  lemma SingleHyphensTail(t: string)
    requires SingleHyphens(t) && t != []
    ensures SingleHyphens(t[1..])
  {
    var tail := t[1..];
    assert forall k :: 0 <= k < |tail| ==> tail[k] == t[k + 1];
  }

  // The 25 characters with the Unicode White_Space property.
  lemma WhitespaceIs(c: char)
    ensures IsWhitespace(c) <==> c as int in {
      0x09, 0x0A, 0x0B, 0x0C, 0x0D, 0x20, 0x85, 0xA0, 0x1680, 0x2000, 0x2001, 0x2002, 0x2003, 0x2004, 0x2005, 0x2006,
      0x2007, 0x2008, 0x2009, 0x200A, 0x2028, 0x2029, 0x202F, 0x205F, 0x3000}
  {
  }

  // What collapsing emits: lower case, no whitespace, and hyphens one at a time.
  predicate IsNormal(t: string) {
    SingleHyphens(t) && forall k :: 0 <= k < |t| ==> !IsWhitespace(t[k]) && !('A' <= t[k] <= 'Z')
  }

  lemma {:induction false} CollapsedIsNormal(s: string, afterSeparator: bool)
    ensures IsNormal(Collapsed(s, afterSeparator))
    ensures afterSeparator && Collapsed(s, true) != [] ==> Collapsed(s, true)[0] != '-'
  {
    if s != [] {
      CollapsedIsNormal(s[1..], IsSeparator(s[0]));
      if !IsSeparator(s[0]) {
        LowerIsNoHyphen(s[0]);
      } else if afterSeparator {
        assert Collapsed(s, true) == Collapsed(s[1..], true);
      }
    }
  }

  lemma {:induction false} NormalWritesItself(t: string)
    requires IsNormal(t)
    ensures Writes(t, t)
  {
    if t != [] {
      SingleHyphensTail(t);
      assert forall k :: 0 <= k < |t[1..]| ==> t[1..][k] == t[k + 1];
      NormalWritesItself(t[1..]);
    }
  }

  // ---- trimming ----

  lemma {:induction false} TrimStartDrops(s: string) returns (before: string)
    ensures Blank(before) && s == before + TrimStart(s)
    ensures TrimStart(s) != [] ==> !IsWhitespace(TrimStart(s)[0])
  {
    before := [];
    if s != [] && IsWhitespace(s[0]) {
      var rest := TrimStartDrops(s[1..]);
      before := [s[0]] + rest;
    }
  }

  lemma {:induction false} TrimEndDrops(s: string) returns (after: string)
    ensures Blank(after) && s == TrimEnd(s) + after
    ensures TrimEnd(s) != [] ==> !IsWhitespace(TrimEnd(s)[|TrimEnd(s)| - 1]) && TrimEnd(s)[0] == s[0]
  {
    after := [];
    if s != [] && IsWhitespace(s[|s| - 1]) {
      var rest := TrimEndDrops(s[..|s| - 1]);
      after := rest + [s[|s| - 1]];
    }
  }

  lemma TrimDrops(input: string) returns (before: string, after: string)
    ensures Blank(before) && Blank(after) && input == before + Trim(input) + after
    ensures Trim(input) != [] ==> !IsWhitespace(Trim(input)[0]) && !IsWhitespace(Trim(input)[|Trim(input)| - 1])
  {
    before := TrimStartDrops(input);
    after := TrimEndDrops(TrimStart(input));
    Regroup(before, Trim(input), after);
  }

  lemma {:induction false} TrimStartOf(before: string, s: string)
    requires Blank(before) && (s != [] ==> !IsWhitespace(s[0]))
    ensures TrimStart(before + s) == s
  {
    if before == [] {
      assert before + s == s;
    } else {
      assert (before + s)[1..] == before[1..] + s;
      TrimStartOf(before[1..], s);
    }
  }

  lemma {:induction false} TrimEndOf(s: string, after: string)
    requires Blank(after) && (s != [] ==> !IsWhitespace(s[|s| - 1]))
    ensures TrimEnd(s + after) == s
    decreases |after|
  {
    if after == [] {
      assert s + after == s;
    } else {
      var last := |after| - 1;
      assert (s + after)[..|s + after| - 1] == s + after[..last];
      TrimEndOf(s, after[..last]);
    }
  }

  lemma TrimOf(before: string, s: string, after: string)
    requires Blank(before) && Blank(after) && (s != [] ==> !IsWhitespace(s[0]) && !IsWhitespace(s[|s| - 1]))
    ensures Trim(before + s + after) == s
  {
    if s == [] {
      assert before + s + after == (before + after) + [];
      TrimStartOf(before + after, []);
    } else {
      Regroup(before, s, after);
      TrimStartOf(before, s + after);
      TrimEndOf(s, after);
    }
  }

  // ---- both directions ----

  // Of any input, the normalised text is the one text with no two hyphens in a row that the input, blanks
  // around it aside, writes out.
  lemma NormalizedIff(input: string, t: string)
    ensures Normalized(input) == t <==>
      SingleHyphens(t) && exists before, s, after :: WritesBetween(input, before, s, after, t)
  {
    if Normalized(input) == t {
      var before, after := TrimDrops(input);
      CollapsedIsWritten(Trim(input));
      CollapsedIsNormal(Trim(input), false);
      assert WritesBetween(input, before, Trim(input), after, t);
    }
    forall before, s, after | SingleHyphens(t) && WritesBetween(input, before, s, after, t)
      ensures Normalized(input) == t
    {
      TrimOf(before, s, after);
      WrittenCollapses(s, t);
    }
  }

  // It has no upper-case ASCII letter, no whitespace and no two hyphens in a row, and normalising it again
  // changes nothing.
  lemma NormalizedIsNormal(input: string)
    ensures IsNormal(Normalized(input)) && Normalized(Normalized(input)) == Normalized(input)
  {
    var t := Normalized(input);
    CollapsedIsNormal(Trim(input), false);
    NormalWritesItself(t);
    assert [] + t + [] == t;
    assert WritesBetween(t, [], t, [], t);
    NormalizedIff(t, t);
  }

  // ---- segmentation ----

  function Paired(a: string, b: string): string {
    a + ['-'] + b
  }

  // Left to right, two adjacent parts are one word whenever the list holds them hyphenated.
  function Segmented(parts: seq<string>, list: seq<string>): seq<string>
    decreases |parts|
  {
    if parts == [] then []
    else if |parts| >= 2 && Paired(parts[0], parts[1]) in list
    then [Paired(parts[0], parts[1])] + Segmented(parts[2..], list)
    else [parts[0]] + Segmented(parts[1..], list)
  }

  // Where a part begins in the joined text.
  function Start(parts: seq<string>, i: nat): nat
    requires i <= |parts|
  {
    if i == 0 then 0 else Start(parts, i - 1) + |parts[i - 1]| + 1
  }

  lemma DropTwice(s: string, a: nat, b: nat)
    requires a + b <= |s|
    ensures s[a..][b..] == s[a + b..]
  {
  }

  lemma {:induction false} JoinFrom(parts: seq<string>, i: nat)
    requires i < |parts|
    ensures Start(parts, i) <= |Join(parts, '-')|
    ensures Join(parts, '-')[Start(parts, i)..] == Join(parts[i..], '-')
  {
    if i > 0 {
      JoinFrom(parts, i - 1);
      assert parts[i - 1..][1..] == parts[i..];
      var tail := Join(parts[i - 1..], '-');
      assert tail == parts[i - 1] + ['-'] + Join(parts[i..], '-');
      assert tail[|parts[i - 1]| + 1..] == Join(parts[i..], '-');
      DropTwice(Join(parts, '-'), Start(parts, i - 1), |parts[i - 1]| + 1);
    }
  }

  lemma PairIsASlice(parts: seq<string>, i: nat)
    requires i + 1 < |parts|
    ensures Start(parts, i) <= Start(parts, i + 1) + |parts[i + 1]| <= |Join(parts, '-')|
    ensures Join(parts, '-')[Start(parts, i)..Start(parts, i + 1) + |parts[i + 1]|] == Paired(parts[i], parts[i + 1])
  {
    JoinFrom(parts, i);
    JoinFrom(parts, i + 1);
    var text, tail := Join(parts, '-'), Join(parts[i..], '-');
    assert parts[i..][1..] == parts[i + 1..];
    assert tail == parts[i] + ['-'] + Join(parts[i + 1..], '-');
    assert parts[i + 1] <= Join(parts[i + 1..], '-');
    var pair := Paired(parts[i], parts[i + 1]);
    assert tail[..|pair|] == pair;
    assert text[Start(parts, i)..Start(parts, i) + |pair|] == text[Start(parts, i)..][..|pair|];
  }

  lemma SegmentedFrom(parts: seq<string>, i: nat, list: seq<string>)
    requires i < |parts|
    ensures Segmented(parts[i..], list)
         == if i + 1 < |parts| && Paired(parts[i], parts[i + 1]) in list
            then [Paired(parts[i], parts[i + 1])] + Segmented(parts[i + 2..], list)
            else [parts[i]] + Segmented(parts[i + 1..], list)
  {
    assert parts[i..][1..] == parts[i + 1..];
    if i + 1 < |parts| {
      assert parts[i..][2..] == parts[i + 2..];
    }
  }

  predicate IsSpan(parts: seq<string>, j: nat, span: (nat, nat))
    requires j < |parts|
  {
    span.0 == Start(parts, j) && span.1 == span.0 + |parts[j]|
  }

  method Spans(parts: seq<string>) returns (spans: seq<(nat, nat)>)
    ensures |spans| == |parts| && forall j :: 0 <= j < |parts| ==> IsSpan(parts, j, spans[j])
  {
    spans := [];
    var offset := 0;
    for k := 0 to |parts|
      invariant offset == Start(parts, k) && |spans| == k
      invariant forall j :: 0 <= j < k ==> IsSpan(parts, j, spans[j])
    {
      assert Start(parts, k + 1) == Start(parts, k) + |parts[k]| + 1;
      var end := offset + |parts[k]|;
      spans := spans + [(offset, end)];
      offset := end + 1;
    }
  }

  lemma SpansPair(parts: seq<string>, spans: seq<(nat, nat)>, i: nat)
    requires i + 1 < |parts| == |spans| && forall j :: 0 <= j < |parts| ==> IsSpan(parts, j, spans[j])
    ensures spans[i].0 <= spans[i + 1].1 <= |Join(parts, '-')|
    ensures Join(parts, '-')[spans[i].0..spans[i + 1].1] == Paired(parts[i], parts[i + 1])
  {
    PairIsASlice(parts, i);
    assert IsSpan(parts, i, spans[i]) && IsSpan(parts, i + 1, spans[i + 1]);
  }

  method SegmentWords(normalized: string, parts: seq<string>, list: seq<string>) returns (segmented: seq<string>)
    requires normalized == Join(parts, '-')
    ensures segmented == Segmented(parts, list)
  {
    var spans := Spans(parts);
    segmented := [];
    var i := 0;
    while i < |parts|
      invariant i <= |parts|
      invariant segmented + Segmented(parts[i..], list) == Segmented(parts, list)
    {
      SegmentedFrom(parts, i, list);
      if i + 1 < |parts| {
        SpansPair(parts, spans, i);
        var joined := normalized[spans[i].0..spans[i + 1].1];
        if joined in list {
          Regroup(segmented, [joined], Segmented(parts[i + 2..], list));
          segmented := segmented + [joined];
          i := i + 2;
          continue;
        }
      }
      Regroup(segmented, [parts[i]], Segmented(parts[i + 1..], list));
      segmented := segmented + [parts[i]];
      i := i + 1;
    }
  }

  // ---- parsing ----

  predicate AllLower(s: string) {
    forall k :: 0 <= k < |s| ==> IsLower(s[k])
  }

  predicate HasEmptyPart(parts: seq<string>) {
    exists k :: 0 <= k < |parts| && parts[k] == []
  }

  predicate HasOtherCharacters(parts: seq<string>) {
    exists k :: 0 <= k < |parts| && !AllLower(parts[k])
  }

  predicate HasUnlistedWord(words: seq<string>, list: seq<string>) {
    exists k :: 0 <= k < |words| && words[k] !in list
  }

  function ParseOf(candidate: string, list: seq<string>): Parse {
    var normalized := Normalized(candidate);
    var parts := Split(normalized, '-');
    var words := Segmented(parts, list);
    if |list| != WORD_LIST_SIZE then Rejected(WordListSize(|list|))
    else if HasEmptyPart(parts) then Rejected(Separator)
    else if HasOtherCharacters(parts) then Rejected(Case)
    else if |words| != WORD_COUNT then Rejected(WordCount)
    else if HasUnlistedWord(words, list) then Rejected(WordUnknown)
    else Parsed(Phrase(normalized, words))
  }

  method ParseCanonical(candidate: string, list: seq<string>) returns (r: Parse)
    ensures r == ParseOf(candidate, list)
  {
    if |list| != WORD_LIST_SIZE {
      return Rejected(WordListSize(|list|));
    }
    var normalized := Normalize(candidate);
    var parts := Split(normalized, '-');
    if HasEmptyPart(parts) {
      return Rejected(Separator);
    }
    if HasOtherCharacters(parts) {
      return Rejected(Case);
    }
    SplitInverts(normalized, '-');
    var words := SegmentWords(normalized, parts, list);
    if |words| != WORD_COUNT {
      return Rejected(WordCount);
    }
    if HasUnlistedWord(words, list) {
      return Rejected(WordUnknown);
    }
    r := Parsed(Phrase(normalized, words));
  }

  // What generating returns for six chosen entries.
  function Generated(choice: seq<string>): Phrase {
    Phrase(Join(choice, '-'), choice)
  }

  function DisplayForm(p: Phrase): string {
    Join(p.words, ' ')
  }

  // ---- segmenting regroups ----

  function PartsOf(words: seq<string>): seq<string> {
    if words == [] then [] else Split(words[0], '-') + PartsOf(words[1..])
  }

  lemma {:induction false} SplitOfJoin(words: seq<string>)
    requires words != []
    ensures Split(Join(words, '-'), '-') == PartsOf(words)
  {
    if |words| == 1 {
      assert PartsOf(words[1..]) == [];
    } else {
      SplitOfPair(words[0], Join(words[1..], '-'), '-');
      SplitOfJoin(words[1..]);
    }
  }

  // Segmenting only regroups: the text stays the same.
  lemma {:induction false} SegmentingKeepsTheText(parts: seq<string>, list: seq<string>)
    ensures Join(Segmented(parts, list), '-') == Join(parts, '-')
    ensures parts != [] ==> Segmented(parts, list) != []
    decreases |parts|
  {
    if parts != [] {
      var step := if |parts| >= 2 && Paired(parts[0], parts[1]) in list then 2 else 1;
      SegmentingKeepsTheText(parts[step..], list);
      if |parts| > step {
        assert parts == parts[..step] + parts[step..];
        JoinOfTwoLists(parts[..step], parts[step..], '-');
        assert step == 2 ==> parts[..2][1..] == [parts[1]];
        var first := Segmented(parts, list)[0];
        assert Segmented(parts, list) == [first] + Segmented(parts[step..], list);
        JoinOfTwoLists([first], Segmented(parts[step..], list), '-');
      } else {
        assert step == 2 ==> parts[1..] == [parts[1]];
      }
    }
  }

  // Whatever the list, a parse that succeeds has six listed words that join to its canonical text,
  // which is the normalised candidate.
  lemma ParsedIsListed(candidate: string, list: seq<string>)
    requires ParseOf(candidate, list).Parsed?
    ensures var p := ParseOf(candidate, list).phrase;
      && |p.words| == WORD_COUNT && (forall w :: w in p.words ==> w in list)
      && Join(p.words, '-') == p.canonical == Normalized(candidate)
  {
    var parts := Split(Normalized(candidate), '-');
    SplitInverts(Normalized(candidate), '-');
    SegmentingKeepsTheText(parts, list);
  }

  // ---- unique decoding ----

  predicate InLetters(s: string) {
    forall k :: 0 <= k < |s| ==> s[k] in "abcdefghijklmnopqrstuvwxyz"
  }

  // One or two parts of lowercase letters.
  predicate IsEntry(e: string) {
    && |Split(e, '-')| <= 2
    && forall k :: 0 <= k < |Split(e, '-')| ==> Split(e, '-')[k] != [] && InLetters(Split(e, '-')[k])
  }

  lemma LetterIs(c: char)
    ensures IsLower(c) <==> c in "abcdefghijklmnopqrstuvwxyz"
  {
    if IsLower(c) {
      assert "abcdefghijklmnopqrstuvwxyz"[c as int - 'a' as int] == c;
    }
  }

  lemma LettersAre(s: string)
    ensures AllLower(s) <==> InLetters(s)
  {
    forall c
      ensures IsLower(c) <==> c in "abcdefghijklmnopqrstuvwxyz"
    {
      LetterIs(c);
    }
  }

  predicate IsWordList(list: seq<string>) {
    forall e :: e in list ==> IsEntry(e)
  }

  predicate IsChoice(choice: seq<string>, list: seq<string>) {
    choice != [] && forall e :: e in choice ==> e in list
  }

  // Entry `u` followed by entry `v` reads as a third entry.
  predicate Clashes(u: string, v: string, list: seq<string>) {
    u in list && v in list && |Split(u, '-')| == 1 && Paired(u, Split(v, '-')[0]) in list
  }

  ghost predicate NoClash(list: seq<string>) {
    forall u, v :: !Clashes(u, v, list)
  }

  lemma SinglePart(e: string)
    ensures |Split(e, '-')| == 1 ==> Split(e, '-') == [e]
    ensures |Split(e, '-')| == 2 ==> Paired(Split(e, '-')[0], Split(e, '-')[1]) == e
  {
    SplitInverts(e, '-');
    if |Split(e, '-')| == 2 {
      assert Split(e, '-')[1..] == [Split(e, '-')[1]];
    }
  }

  lemma {:induction false} ChoiceIsRecovered(choice: seq<string>, list: seq<string>)
    requires IsWordList(list) && NoClash(list) && forall e :: e in choice ==> e in list
    ensures Segmented(PartsOf(choice), list) == choice
  {
    if choice != [] {
      var e, rest := choice[0], choice[1..];
      ChoiceIsRecovered(rest, list);
      SinglePart(e);
      assert IsEntry(e);
      assert PartsOf(choice) == Split(e, '-') + PartsOf(rest);
      assert PartsOf(choice)[|Split(e, '-')|..] == PartsOf(rest);
      if |Split(e, '-')| == 1 && rest != [] {
        assert PartsOf(rest)[0] == Split(rest[0], '-')[0];
        assert !Clashes(e, rest[0], list);
      }
    }
  }

  // A clash breaks the reading of any choice that begins with it.
  lemma ClashIsMisread(u: string, v: string, rest: seq<string>, list: seq<string>)
    requires Clashes(u, v, list)
    ensures Segmented(PartsOf([u, v] + rest), list) != [u, v] + rest
  {
    SinglePart(u);
    var parts, tail := PartsOf([u, v] + rest), [v] + rest;
    assert ([u, v] + rest)[1..] == tail && tail[1..] == rest;
    assert PartsOf(tail) == Split(v, '-') + PartsOf(rest);
    assert parts == Split(u, '-') + PartsOf(tail);
    assert parts[0] == u && parts[1] == Split(v, '-')[0];
    assert |Segmented(parts, list)[0]| > |u|;
  }

  // Every choice of six entries is read back as itself exactly when no entry of one part, followed
  // by the first part of an entry, spells a third.
  lemma DecodesUniquelyIff(list: seq<string>)
    requires IsWordList(list)
    ensures (forall choice :: |choice| == WORD_COUNT && IsChoice(choice, list)
              ==> Segmented(Split(Join(choice, '-'), '-'), list) == choice)
       <==> NoClash(list)
  {
    if NoClash(list) {
      forall choice | |choice| == WORD_COUNT && IsChoice(choice, list)
        ensures Segmented(Split(Join(choice, '-'), '-'), list) == choice
      {
        SplitOfJoin(choice);
        ChoiceIsRecovered(choice, list);
      }
    } else {
      var u, v :| Clashes(u, v, list);
      var rest := [u, u, u, u];
      var choice := [u, v] + rest;
      ClashIsMisread(u, v, rest, list);
      SplitOfJoin(choice);
      assert |choice| == WORD_COUNT && IsChoice(choice, list);
    }
  }

  // The documented reason: no hyphenated entry's left half is itself an entry.
  lemma LeftHalvesAbsentIsEnough(list: seq<string>)
    requires IsWordList(list)
    requires forall e :: e in list && |Split(e, '-')| == 2 ==> Split(e, '-')[0] !in list
    ensures NoClash(list)
  {
    forall u, v
      ensures !Clashes(u, v, list)
    {
      var e := Paired(u, Split(v, '-')[0]);
      SplitOfPair(u, Split(v, '-')[0], '-');
      SinglePart(u);
      assert |Split(u, '-')| == 1 ==> Split(e, '-')[0] == u && |Split(e, '-')| >= 2;
      assert e in list ==> IsEntry(e);
    }
  }

  // ---- the two written forms ----

  // Lowercase words parted by single separators, none at the ends.
  predicate TidyFrom(s: string, afterSeparator: bool) {
    if s == [] then !afterSeparator
    else if IsSeparator(s[0]) then !afterSeparator && TidyFrom(s[1..], true)
    else IsLower(s[0]) && TidyFrom(s[1..], false)
  }

  function Hyphened(s: string): (r: string)
    ensures |r| == |s|
  {
    seq(|s|, k requires 0 <= k < |s| => if IsSeparator(s[k]) then '-' else s[k])
  }

  lemma {:induction false} TidyCollapses(s: string, afterSeparator: bool)
    requires TidyFrom(s, afterSeparator)
    ensures Collapsed(s, afterSeparator) == Hyphened(s)
  {
    if s != [] {
      TidyCollapses(s[1..], IsSeparator(s[0]));
      assert Hyphened(s) == [Hyphened(s)[0]] + Hyphened(s[1..]);
    }
  }

  lemma {:induction false} TidyEnds(s: string, afterSeparator: bool)
    requires TidyFrom(s, afterSeparator) && s != []
    ensures !IsWhitespace(s[|s| - 1])
  {
    if |s| > 1 {
      TidyEnds(s[1..], IsSeparator(s[0]));
    }
  }

  lemma TidyNormalizes(s: string)
    requires TidyFrom(s, true)
    ensures Normalized(s) == Hyphened(s)
  {
    TidyEnds(s, true);
    assert Trim(s) == s;
    TidyCollapses(s, true);
  }

  lemma {:induction false} TidySum(a: string, separator: char, b: string, afterSeparator: bool)
    requires TidyFrom(a, afterSeparator) && IsSeparator(separator) && TidyFrom(b, true)
    ensures TidyFrom(a + [separator] + b, afterSeparator)
  {
    var s := a + [separator] + b;
    if a == [] {
      assert s[1..] == b;
    } else {
      TidySum(a[1..], separator, b, IsSeparator(a[0]));
      assert s[1..] == a[1..] + [separator] + b;
    }
  }

  lemma {:induction false} LowerIsTidy(s: string, afterSeparator: bool)
    requires AllLower(s) && (s == [] ==> !afterSeparator)
    ensures TidyFrom(s, afterSeparator)
  {
    if s != [] {
      LowerIsTidy(s[1..], false);
    }
  }

  lemma EntryIsTidy(e: string)
    requires IsEntry(e)
    ensures TidyFrom(e, true) && Hyphened(e) == e
  {
    SinglePart(e);
    LettersAre(Split(e, '-')[0]);
    LowerIsTidy(Split(e, '-')[0], true);
    if |Split(e, '-')| == 2 {
      LettersAre(Split(e, '-')[1]);
      LowerIsTidy(Split(e, '-')[1], true);
      TidySum(Split(e, '-')[0], '-', Split(e, '-')[1], true);
    }
  }

  lemma HyphenedSum(a: string, separator: char, b: string)
    requires IsSeparator(separator)
    ensures Hyphened(a + [separator] + b) == Hyphened(a) + ['-'] + Hyphened(b)
  {
  }

  lemma {:induction false} JoinedIsTidy(words: seq<string>, separator: char)
    requires words != [] && IsSeparator(separator) && forall e :: e in words ==> IsEntry(e)
    ensures TidyFrom(Join(words, separator), true)
    ensures Hyphened(Join(words, separator)) == Join(words, '-')
  {
    EntryIsTidy(words[0]);
    if |words| > 1 {
      JoinedIsTidy(words[1..], separator);
      TidySum(words[0], separator, Join(words[1..], separator), true);
      HyphenedSum(words[0], separator, Join(words[1..], separator));
    }
  }

  lemma {:induction false} PartsAreWords(words: seq<string>)
    requires forall e :: e in words ==> IsEntry(e)
    ensures forall p :: p in PartsOf(words) ==> p != [] && AllLower(p)
  {
    if words != [] {
      PartsAreWords(words[1..]);
      assert IsEntry(words[0]);
    }
  }

  lemma ParseOfWritten(candidate: string, choice: seq<string>, list: seq<string>)
    requires |list| == WORD_LIST_SIZE && IsWordList(list) && NoClash(list)
    requires |choice| == WORD_COUNT && IsChoice(choice, list)
    requires Normalized(candidate) == Join(choice, '-')
    ensures ParseOf(candidate, list) == Parsed(Generated(choice))
  {
    SplitOfJoin(choice);
    ChoiceIsRecovered(choice, list);
    PartsAreWords(choice);
    assert forall k :: 0 <= k < |PartsOf(choice)| ==> PartsOf(choice)[k] in PartsOf(choice);
    assert forall k :: 0 <= k < |choice| ==> choice[k] in choice;
    assert !HasEmptyPart(PartsOf(choice)) && !HasOtherCharacters(PartsOf(choice)) && !HasUnlistedWord(choice, list);
  }

  // Under a list that decodes uniquely, a text is accepted exactly when it normalises to six listed
  // entries joined by hyphens, and those entries are what it is read as.
  lemma ParsesIff(candidate: string, p: Phrase, list: seq<string>)
    requires |list| == WORD_LIST_SIZE && IsWordList(list) && NoClash(list)
    ensures ParseOf(candidate, list) == Parsed(p) <==>
      && |p.words| == WORD_COUNT && IsChoice(p.words, list)
      && p == Generated(p.words) && Normalized(candidate) == p.canonical
  {
    if ParseOf(candidate, list) == Parsed(p) {
      ParsedIsListed(candidate, list);
    } else if |p.words| == WORD_COUNT && IsChoice(p.words, list)
      && Normalized(candidate) == Generated(p.words).canonical {
      ParseOfWritten(candidate, p.words, list);
    }
  }

  // A generated phrase is recovered from its canonical text and from its display form.
  lemma WrittenFormsRoundTrip(choice: seq<string>, list: seq<string>)
    requires |list| == WORD_LIST_SIZE && IsWordList(list) && NoClash(list)
    requires |choice| == WORD_COUNT && IsChoice(choice, list)
    ensures ParseOf(Generated(choice).canonical, list) == Parsed(Generated(choice))
    ensures ParseOf(DisplayForm(Generated(choice)), list) == Parsed(Generated(choice))
  {
    JoinedIsTidy(choice, '-');
    TidyNormalizes(Join(choice, '-'));
    ParseOfWritten(Join(choice, '-'), choice, list);
    JoinedIsTidy(choice, ' ');
    TidyNormalizes(Join(choice, ' '));
    ParseOfWritten(Join(choice, ' '), choice, list);
  }

  // A generated phrase is recovered however its words are cased and however wide the gaps between them, in
  // spaces or hyphens, with any blanks around.
  lemma AnyWritingParses(candidate: string, before: string, s: string, after: string, choice: seq<string>,
                         list: seq<string>)
    requires |list| == WORD_LIST_SIZE && IsWordList(list) && NoClash(list)
    requires |choice| == WORD_COUNT && IsChoice(choice, list)
    requires WritesBetween(candidate, before, s, after, Join(choice, '-'))
    ensures ParseOf(candidate, list) == Parsed(Generated(choice))
  {
    JoinIsNormal(choice);
    NormalizedIff(candidate, Join(choice, '-'));
    ParseOfWritten(candidate, choice, list);
  }

  lemma JoinIsNormal(choice: seq<string>)
    requires choice != [] && forall e :: e in choice ==> IsEntry(e)
    ensures IsNormal(Join(choice, '-'))
  {
    JoinedIsTidy(choice, '-');
    TidyNormalizes(Join(choice, '-'));
    NormalizedIsNormal(Join(choice, '-'));
  }

  // And nothing else is accepted: a text parses to a phrase exactly when it writes out, between blanks, the
  // hyphenated join of that phrase's six listed entries.
  lemma AcceptsIff(candidate: string, p: Phrase, list: seq<string>)
    requires |list| == WORD_LIST_SIZE && IsWordList(list) && NoClash(list)
    ensures ParseOf(candidate, list) == Parsed(p) <==>
      && |p.words| == WORD_COUNT && IsChoice(p.words, list) && p == Generated(p.words)
      && exists before, s, after :: WritesBetween(candidate, before, s, after, p.canonical)
  {
    ParsesIff(candidate, p, list);
    if |p.words| == WORD_COUNT && IsChoice(p.words, list) && p == Generated(p.words) {
      JoinIsNormal(p.words);
      NormalizedIff(candidate, p.canonical);
    }
  }

  // ---- which failure is reported ----

  lemma {:induction false} LaterEmptyPart(t: string)
    ensures HasEmptyPart(Split(t, '-')[1..]) <==> t != [] && (t[|t| - 1] == '-' || !SingleHyphens(t))
  {
    if t != [] {
      var c, rest := t[0], t[1..];
      LaterEmptyPart(rest);
      FirstPart(rest);
      assert forall k :: 0 <= k < |rest| ==> rest[k] == t[k + 1];
      var parts := Split(rest, '-');
      if c == '-' {
        assert Split(t, '-')[1..] == parts;
        assert parts == [parts[0]] + parts[1..];
        EmptyPartSum(parts[0], parts[1..]);
        HyphensFrom(t);
      } else {
        assert Split(t, '-')[1..] == parts[1..];
        HyphensFrom(t);
      }
    }
  }

  lemma EmptyPartSum(first: string, rest: seq<string>)
    ensures HasEmptyPart([first] + rest) <==> first == [] || HasEmptyPart(rest)
  {
    var parts := [first] + rest;
    assert parts[0] == first && forall k :: 0 <= k < |rest| ==> rest[k] == parts[k + 1];
  }

  lemma HyphensFrom(t: string)
    requires t != []
    ensures SingleHyphens(t) <==> SingleHyphens(t[1..]) && !(|t| > 1 && t[0] == '-' && t[1] == '-')
  {
    var tail := t[1..];
    assert forall k :: 0 <= k < |tail| ==> tail[k] == t[k + 1];
  }

  lemma FirstPart(t: string)
    ensures Split(t, '-')[0] == [] <==> t == [] || t[0] == '-'
  {
  }

  lemma EmptyPartIff(t: string)
    requires SingleHyphens(t)
    ensures HasEmptyPart(Split(t, '-')) <==> t == [] || t[0] == '-' || t[|t| - 1] == '-'
  {
    var parts := Split(t, '-');
    assert parts == [parts[0]] + parts[1..];
    EmptyPartSum(parts[0], parts[1..]);
    FirstPart(t);
    LaterEmptyPart(t);
  }

  // A character that is neither a hyphen nor a lowercase letter.
  predicate HasOdd(t: string) {
    exists k :: 0 <= k < |t| && t[k] != '-' && t[k] !in "abcdefghijklmnopqrstuvwxyz"
  }

  lemma {:induction false} OtherCharactersIff(t: string)
    ensures HasOtherCharacters(Split(t, '-')) <==> HasOdd(t)
  {
    if t != [] {
      var c, rest := t[0], t[1..];
      OtherCharactersIff(rest);
      LetterIs(c);
      OddFrom(t);
      OtherPreceded(c, Split(rest, '-'));
    }
  }

  lemma OddFrom(t: string)
    requires t != []
    ensures HasOdd(t) <==> HasOdd(t[1..]) || (t[0] != '-' && t[0] !in "abcdefghijklmnopqrstuvwxyz")
  {
    var tail := t[1..];
    assert forall k :: 0 <= k < |tail| ==> tail[k] == t[k + 1];
  }

  lemma OtherPreceded(c: char, parts: seq<string>)
    requires parts != []
    ensures HasOtherCharacters(Preceded(c, parts, '-')) <==> HasOtherCharacters(parts) || (c != '-' && !IsLower(c))
  {
    var all := Preceded(c, parts, '-');
    if c == '-' {
      assert all[0] == [] && forall k :: 0 <= k < |parts| ==> parts[k] == all[k + 1];
    } else {
      LongerFirstPart(c, parts[0]);
      assert all[0] == [c] + parts[0] && forall k :: 0 < k < |parts| ==> parts[k] == all[k];
    }
  }

  lemma LongerFirstPart(c: char, part: string)
    ensures AllLower([c] + part) <==> IsLower(c) && AllLower(part)
  {
    var all := [c] + part;
    assert all[0] == c && forall k :: 0 <= k < |part| ==> part[k] == all[k + 1];
  }

  // Which failure is reported, in this order: a list of the wrong size; a normalised text that is empty or
  // begins or ends with a hyphen; a character other than a hyphen or a lowercase letter; segments that are
  // not six; a segment that is not listed.
  lemma RejectsIff(candidate: string, list: seq<string>)
    ensures var r, t := ParseOf(candidate, list), Normalized(candidate);
      var words := Segmented(Split(t, '-'), list);
      var size, edges, odd := |list| == 7776, t == [] || t[0] == '-' || t[|t| - 1] == '-', HasOdd(t);
      && (r == Rejected(WordListSize(|list|)) <==> !size)
      && (r == Rejected(Separator) <==> size && edges)
      && (r == Rejected(Case) <==> size && !edges && odd)
      && (r == Rejected(WordCount) <==> size && !edges && !odd && |words| != 6)
      && (r == Rejected(WordUnknown) <==>
            size && !edges && !odd && |words| == 6 && exists w :: w in words && w !in list)
  {
    NormalizedIsNormal(candidate);
    EmptyPartIff(Normalized(candidate));
    OtherCharactersIff(Normalized(candidate));
  }

  // Different choices of words have different canonical texts, so different pre-shared keys.
  lemma DifferentChoicesDiffer(a: seq<string>, b: seq<string>, list: seq<string>)
    requires IsWordList(list) && NoClash(list) && IsChoice(a, list) && IsChoice(b, list) && a != b
    ensures Generated(a).canonical != Generated(b).canonical
  {
    SplitOfJoin(a);
    SplitOfJoin(b);
    ChoiceIsRecovered(a, list);
    ChoiceIsRecovered(b, list);
  }
}
